/**
 * The district and city tables of Sri Lanka used by the item forms and
 * filters: every city once (`allCities`), the district names in table order,
 * and the cities offered for a chosen district.
 */
module LocationData {
  import opened Wrappers
  import opened Sorting

  datatype District = District(name: string, cities: seq<string>)

  /** The 25 districts, in the order the forms list them. */
  const Districts: seq<District> := [
    District("Ampara", ["Ampara", "Kalmunai", "Akkaraipattu", "Sainthamaruthu", "Sammanthurai"]),
    District("Anuradhapura", ["Anuradhapura", "Kekirawa", "Nochchiyagama", "Medawachchiya", "Galnewa"]),
    District("Badulla", ["Badulla", "Bandarawela", "Haputale", "Welimada", "Mahiyanganaya"]),
    District("Batticaloa", ["Batticaloa", "Eravur", "Kalkudah", "Valachchenai", "Kattankudy"]),
    District("Colombo", ["Colombo", "Dehiwala-Mount Lavinia", "Moratuwa", "Sri Jayawardenepura Kotte", "Battaramulla", "Maharagama", "Homagama", "Ratmalana"]),
    District("Galle", ["Galle", "Ambalangoda", "Hikkaduwa", "Elpitiya", "Bentota"]),
    District("Gampaha", ["Gampaha", "Negombo", "Ja-Ela", "Kelaniya", "Kadawatha", "Ragama", "Wattala"]),
    District("Hambantota", ["Hambantota", "Tangalle", "Tissamaharama", "Ambalantota", "Beliatta"]),
    District("Jaffna", ["Jaffna", "Chavakachcheri", "Nallur", "Point Pedro", "Velanai"]),
    District("Kalutara", ["Kalutara", "Panadura", "Beruwala", "Horana", "Matugama"]),
    District("Kandy", ["Kandy", "Katugastota", "Peradeniya", "Gampola", "Akurana"]),
    District("Kegalle", ["Kegalle", "Mawanella", "Rambukkana", "Warakapola", "Galigamuwa"]),
    District("Kilinochchi", ["Kilinochchi", "Pallai", "Poonakary", "Paranthan"]),
    District("Kurunegala", ["Kurunegala", "Kuliyapitiya", "Pannala", "Mawathagama", "Narammala"]),
    District("Mannar", ["Mannar", "Pesalai", "Madhu Road", "Murunkan", "Nanattan"]),
    District("Matale", ["Matale", "Dambulla", "Galewela", "Sigiriya", "Ukuwela"]),
    District("Matara", ["Matara", "Weligama", "Akuressa", "Hakmana", "Dikwella"]),
    District("Monaragala", ["Monaragala", "Bibile", "Wellawaya", "Buttala", "Kataragama"]),
    District("Mullaitivu", ["Mullaitivu", "Puthukkudiyiruppu", "Oddusuddan", "Thunukkai", "Mankulam"]),
    District("Nuwara Eliya", ["Nuwara Eliya", "Hatton", "Ginigathhena", "Talawakele", "Ragala"]),
    District("Polonnaruwa", ["Polonnaruwa", "Kaduruwela", "Hingurakgoda", "Medirigiriya", "Dimbulagala"]),
    District("Puttalam", ["Puttalam", "Chilaw", "Wennappuwa", "Dankotuwa", "Nattandiya"]),
    District("Ratnapura", ["Ratnapura", "Balangoda", "Eheliyagoda", "Pelmadulla", "Kuruwita"]),
    District("Trincomalee", ["Trincomalee", "Kinniya", "Kantale", "Muttur", "Nilaveli"]),
    District("Vavuniya", ["Vavuniya", "Nedunkerny", "Settikulam", "Vavuniya South"])
  ]

  /** `districts.flatMap((d) => d.cities)`. */
  function FlatCities(ds: seq<District>): seq<string> {
    if ds == [] then [] else ds[0].cities + FlatCities(ds[1..])
  }

  /** A city is listed exactly when some district lists it. */
  lemma {:induction false} FlatCitiesMember(ds: seq<District>, c: string)
    ensures c in FlatCities(ds) <==> exists i :: 0 <= i < |ds| && c in ds[i].cities
  {
    if ds != [] {
      FlatCitiesMember(ds[1..], c);
      assert forall i :: 1 <= i < |ds| ==> ds[i] == ds[1..][i - 1];
      if c in FlatCities(ds[1..]) {
        var i :| 0 <= i < |ds[1..]| && c in ds[1..][i].cities;
        assert c in ds[i + 1].cities;
      }
    }
  }

  /** `Array.from(new Set(...))` of all cities. */
  function AllCitiesOf(ds: seq<District>): seq<string> {
    Dedupe(FlatCities(ds))
  }

  function AllCities(): seq<string> {
    AllCitiesOf(Districts)
  }

  /** `allCities` lists every city of every district once, in the order of first occurrence. */
  lemma AllCitiesSpec(ds: seq<District>)
    ensures var all := AllCitiesOf(ds);
      (forall c :: c in all <==> exists i :: 0 <= i < |ds| && c in ds[i].cities) &&
      Distinct(all) &&
      forall i, j :: 0 <= i < j < |all| ==> IndexOf(FlatCities(ds), all[i]) < IndexOf(FlatCities(ds), all[j])
  {
    var all := AllCitiesOf(ds);
    var flat := FlatCities(ds);
    forall c ensures c in all <==> exists i :: 0 <= i < |ds| && c in ds[i].cities {
      FlatCitiesMember(ds, c);
      if c in flat {
        var k :| 0 <= k < |flat| && flat[k] == c;
      }
    }
    DedupeFirstOccurrenceOrder(flat);
  }

  function DistrictName(d: District): string {
    d.name
  }

  /** `districts.map((d) => d.name)`: one name per district, in table order. */
  function DistrictNamesOf(ds: seq<District>): (r: seq<string>)
    ensures |r| == |ds| && forall i :: 0 <= i < |ds| ==> r[i] == ds[i].name
  {
    Map(ds, DistrictName)
  }

  function DistrictNames(): seq<string> {
    DistrictNamesOf(Districts)
  }

  /** `districts.find((d) => d.name === name)`. */
  function FindDistrict(ds: seq<District>, name: string): (r: Option<District>)
    ensures r.Some? ==> exists i :: 0 <= i < |ds| && ds[i] == r.value && r.value.name == name &&
                          forall j :: 0 <= j < i ==> ds[j].name != name
    ensures r.None? <==> forall i :: 0 <= i < |ds| ==> ds[i].name != name
  {
    if ds == [] then None
    else if ds[0].name == name then Some(ds[0])
    else
      var r := FindDistrict(ds[1..], name);
      assert forall i :: 1 <= i < |ds| ==> ds[i] == ds[1..][i - 1];
      r
  }

  function CitiesForDistrictOf(ds: seq<District>, district: string): seq<string> {
    if district == "" then AllCitiesOf(ds)
    else
      match FindDistrict(ds, district)
      case Some(d) => d.cities
      case None => AllCitiesOf(ds)
  }

  /** `getCitiesForDistrict` over the table. */
  function GetCitiesForDistrict(district: string): seq<string> {
    CitiesForDistrictOf(Districts, district)
  }

  /**
   * No district (or an empty one) and an unknown district both give
   * `allCities`; a known district gives the cities of the first district so
   * named.
   */
  lemma CitiesForDistrictSpec(ds: seq<District>, district: string)
    ensures district == "" ==> CitiesForDistrictOf(ds, district) == AllCitiesOf(ds)
    ensures (forall i :: 0 <= i < |ds| ==> ds[i].name != district) ==>
      CitiesForDistrictOf(ds, district) == AllCitiesOf(ds)
    ensures forall i :: 0 <= i < |ds| && district != "" && ds[i].name == district &&
                        (forall j :: 0 <= j < i ==> ds[j].name != district) ==>
      CitiesForDistrictOf(ds, district) == ds[i].cities
  {
    var r := FindDistrict(ds, district);
    if r.Some? {
      var k :| 0 <= k < |ds| && ds[k] == r.value && r.value.name == district &&
                 forall j :: 0 <= j < k ==> ds[j].name != district;
      forall i | 0 <= i < |ds| && ds[i].name == district && (forall j :: 0 <= j < i ==> ds[j].name != district)
        ensures i == k
      {
      }
    }
  }

  /** Every city offered for any district is one of `allCities`. */
  lemma CitiesForDistrictWithinAll(ds: seq<District>, district: string, c: string)
    requires c in CitiesForDistrictOf(ds, district)
    ensures c in AllCitiesOf(ds)
  {
    AllCitiesSpec(ds);
    if district != "" {
      var r := FindDistrict(ds, district);
      if r.Some? {
        var k :| 0 <= k < |ds| && ds[k] == r.value && r.value.name == district &&
                   forall j :: 0 <= j < k ==> ds[j].name != district;
        assert c in ds[k].cities;
      }
    }
  }
}
