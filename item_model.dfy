/**
 * The `Item` document: its fields and defaults, the `status` enum, the
 * `slugify` chain of replacements and the `pre('save')` hook that builds the
 * slug `<slugified title, city and district>-<last six characters of the id>`.
 * `normalize('NFKD')` is taken to be the identity.
 */
module ItemModel {
  import opened Wrappers
  import opened Strings
  import opened Sorting

  /** The ASCII letters and digits (JavaScript's `\w` without `_`). */
  predicate IsAlnum(c: char) {
    'a' <= c <= 'z' || 'A' <= c <= 'Z' || '0' <= c <= '9'
  }

  /** What `.replace(/[^\w\s-]/g, '')` keeps. */
  predicate Kept(c: char) {
    IsAlnum(c) || c == '_' || IsSpace(c) || c == '-'
  }

  /** The class `[\s_-]`. */
  predicate IsRunChar(c: char) {
    IsSpace(c) || c == '_' || c == '-'
  }

  predicate IsSlugChar(c: char) {
    'a' <= c <= 'z' || '0' <= c <= '9' || c == '-'
  }

  predicate NoDoubleDash(s: string) {
    forall i :: 0 <= i < |s| - 1 ==> !(s[i] == '-' && s[i + 1] == '-')
  }

  /** Lower-case letters, digits and single inner dashes. */
  predicate IsSlug(s: string) {
    (forall i :: 0 <= i < |s| ==> IsSlugChar(s[i])) &&
    (s != [] ==> s[0] != '-' && s[|s| - 1] != '-') &&
    NoDoubleDash(s)
  }

  predicate HasAlnum(s: string) {
    exists i :: 0 <= i < |s| && IsAlnum(s[i])
  }

  /** `.replace(/[\s_-]+/g, '-')`: every maximal run of white space, `_` and `-` becomes one `-`. */
  function CollapseRuns(s: string): string {
    if s == [] then []
    else
      var r := CollapseRuns(s[..|s| - 1]);
      var c := s[|s| - 1];
      if !IsRunChar(c) then r + [c]
      else if r != [] && r[|r| - 1] == '-' then r
      else r + "-"
  }

  /** Collapsing leaves dashes and the input's other characters, and never two dashes in a row. */
  lemma {:induction false} CollapseShape(s: string)
    ensures var r := CollapseRuns(s);
      (forall i :: 0 <= i < |r| ==> r[i] == '-' || (r[i] in s && !IsRunChar(r[i]))) && NoDoubleDash(r)
  {
    if s != [] {
      var init := s[..|s| - 1];
      CollapseShape(init);
      assert forall x :: x in init ==> x in s;
    }
  }

  /** `.replace(/^-+/, '')`. */
  function DropLeadingDashes(s: string): (r: string)
    ensures |r| <= |s|
  {
    if s != [] && s[0] == '-' then DropLeadingDashes(s[1..]) else s
  }

  /** What is dropped is a run of dashes at the front, and what is left does not start with one. */
  lemma {:induction false} DropLeadingSpec(s: string)
    ensures var r := DropLeadingDashes(s);
      r == s[|s| - |r|..] && (forall i :: 0 <= i < |s| - |r| ==> s[i] == '-') && (r == [] || r[0] != '-')
  {
    if s != [] && s[0] == '-' {
      DropLeadingSpec(s[1..]);
      var r := DropLeadingDashes(s);
      assert s[1..][|s| - 1 - |r|..] == s[|s| - |r|..];
      forall i | 1 <= i < |s| - |r| ensures s[i] == '-' {
        assert s[i] == s[1..][i - 1];
      }
    }
  }

  /** `.replace(/-+$/, '')`. */
  function DropTrailingDashes(s: string): (r: string)
    ensures |r| <= |s|
  {
    if s != [] && s[|s| - 1] == '-' then DropTrailingDashes(s[..|s| - 1]) else s
  }

  /** What is dropped is a run of dashes at the back, and what is left does not end with one. */
  lemma {:induction false} DropTrailingSpec(s: string)
    ensures var r := DropTrailingDashes(s);
      r == s[..|r|] && (forall i :: |r| <= i < |s| ==> s[i] == '-') && (r == [] || r[|r| - 1] != '-')
  {
    if s != [] && s[|s| - 1] == '-' {
      DropTrailingSpec(s[..|s| - 1]);
      var r := DropTrailingDashes(s);
      assert s[..|s| - 1][..|r|] == s[..|r|];
      forall i | |r| <= i < |s| - 1 ensures s[i] == '-' {
        assert s[i] == s[..|s| - 1][i];
      }
    }
  }

  /** `slugify`: drop symbols, trim, collapse separator runs, strip outer dashes, lower-case. */
  function Slugify(text: string): string {
    ToLower(DropTrailingDashes(DropLeadingDashes(CollapseRuns(Trim(Filter(text, Kept))))))
  }

  /** The letters and digits of a text, in order. */
  function AlnumOf(s: string): string {
    Filter(s, IsAlnum)
  }

  /** Removing a front without letters or digits keeps the letters and digits. */
  lemma DropFrontAlnum(s: string, n: nat)
    requires n <= |s| && forall i :: 0 <= i < n ==> !IsAlnum(s[i])
    ensures AlnumOf(s[n..]) == AlnumOf(s)
  {
    assert s == s[..n] + s[n..];
    FilterAppend(s[..n], s[n..], IsAlnum);
    CountNone(s[..n], IsAlnum);
  }

  /** Removing a back without letters or digits keeps the letters and digits. */
  lemma DropBackAlnum(s: string, n: nat)
    requires n <= |s| && forall i :: n <= i < |s| ==> !IsAlnum(s[i])
    ensures AlnumOf(s[..n]) == AlnumOf(s)
  {
    assert s == s[..n] + s[n..];
    FilterAppend(s[..n], s[n..], IsAlnum);
    CountNone(s[n..], IsAlnum);
  }

  lemma TrimStartAlnum(s: string)
    ensures AlnumOf(TrimStart(s)) == AlnumOf(s)
  {
    TrimStartSpec(s);
    var n := |s| - |TrimStart(s)|;
    forall i | 0 <= i < n ensures !IsAlnum(s[i]) {
      assert s[i] == s[..n][i];
    }
    DropFrontAlnum(s, n);
  }

  lemma TrimEndAlnum(s: string)
    ensures AlnumOf(TrimEnd(s)) == AlnumOf(s)
  {
    TrimEndSpec(s);
    var n := |TrimEnd(s)|;
    forall i | n <= i < |s| ensures !IsAlnum(s[i]) {
      assert s[i] == s[n..][i - n];
    }
    DropBackAlnum(s, n);
  }

  lemma TrimAlnum(s: string)
    ensures AlnumOf(Trim(s)) == AlnumOf(s)
  {
    TrimStartAlnum(s);
    TrimEndAlnum(TrimStart(s));
  }

  lemma TrimChars(s: string)
    ensures forall i :: 0 <= i < |Trim(s)| ==> Trim(s)[i] in s
  {
    var t1 := TrimStart(s);
    var t2 := TrimEnd(t1);
    TrimStartSpec(s);
    TrimEndSpec(t1);
    assert forall i :: 0 <= i < |t2| ==> t2[i] == t1[i] && t1[i] in s;
  }

  lemma {:induction false} CollapseAlnum(s: string)
    ensures AlnumOf(CollapseRuns(s)) == AlnumOf(s)
  {
    if s != [] {
      var init := s[..|s| - 1];
      var c := s[|s| - 1];
      var r := CollapseRuns(init);
      CollapseAlnum(init);
      assert s == init + [c];
      FilterAppend(init, [c], IsAlnum);
      FilterSingleton(c, IsAlnum);
      FilterSingleton('-', IsAlnum);
      if !IsRunChar(c) {
        FilterAppend(r, [c], IsAlnum);
      } else if !(r != [] && r[|r| - 1] == '-') {
        FilterAppend(r, "-", IsAlnum);
      }
    }
  }

  lemma {:induction false} LowerAlnum(s: string)
    ensures AlnumOf(ToLower(s)) == ToLower(AlnumOf(s))
  {
    if s != [] {
      LowerAlnum(s[1..]);
      assert ToLower(s)[1..] == ToLower(s[1..]);
    }
  }

  /** `slugify` keeps exactly the ASCII letters and digits of its input, in order, lower-cased. */
  lemma SlugifyAlnum(text: string)
    ensures AlnumOf(Slugify(text)) == ToLower(AlnumOf(text))
  {
    var k := Filter(text, Kept);
    FilterFilter(text, Kept, IsAlnum);
    var t := Trim(k);
    TrimAlnum(k);
    var c := CollapseRuns(t);
    CollapseAlnum(t);
    var d1 := DropLeadingDashes(c);
    DropLeadingSpec(c);
    DropFrontAlnum(c, |c| - |d1|);
    var d2 := DropTrailingDashes(d1);
    DropTrailingSpec(d1);
    DropBackAlnum(d1, |d2|);
    LowerAlnum(d2);
  }

  /** Letters, digits and dashes with no two dashes in a row. */
  predicate Collapsed(c: string) {
    (forall i :: 0 <= i < |c| ==> c[i] == '-' || IsAlnum(c[i])) && NoDoubleDash(c)
  }

  lemma LeadingShape(c: string)
    requires Collapsed(c)
    ensures Collapsed(DropLeadingDashes(c))
  {
    var d := DropLeadingDashes(c);
    DropLeadingSpec(c);
    var n := |c| - |d|;
    assert forall i :: 0 <= i < |d| ==> d[i] == c[n + i];
    assert forall i :: 0 <= i < |d| ==> d[i] == '-' || IsAlnum(d[i]);
    assert NoDoubleDash(d) by {
      forall i | 0 <= i < |d| - 1 ensures !(d[i] == '-' && d[i + 1] == '-') {
        assert d[i] == c[n + i] && d[i + 1] == c[n + i + 1];
      }
    }
  }

  lemma TrailingShape(c: string)
    requires Collapsed(c)
    ensures Collapsed(DropTrailingDashes(c))
  {
    var d := DropTrailingDashes(c);
    DropTrailingSpec(c);
    assert forall i :: 0 <= i < |d| ==> d[i] == c[i];
  }

  /** Stripping the outer dashes of a collapsed text leaves a slug, up to case. */
  lemma StripShape(c: string)
    requires Collapsed(c)
    ensures var d := DropTrailingDashes(DropLeadingDashes(c));
      Collapsed(d) && (d != [] ==> d[0] != '-' && d[|d| - 1] != '-')
  {
    var d1 := DropLeadingDashes(c);
    LeadingShape(c);
    TrailingShape(d1);
    var d2 := DropTrailingDashes(d1);
    DropLeadingSpec(c);
    DropTrailingSpec(d1);
    assert d2 != [] ==> d2[0] == d1[0];
  }

  lemma LowerShape(d: string)
    requires Collapsed(d) && (d != [] ==> d[0] != '-' && d[|d| - 1] != '-')
    ensures IsSlug(ToLower(d))
  {
    var l := ToLower(d);
    forall i | 0 <= i < |l| ensures IsSlugChar(l[i]) && (l[i] == '-' <==> d[i] == '-') {
      assert l[i] == LowerChar(d[i]);
    }
    forall i | 0 <= i < |l| - 1 ensures !(l[i] == '-' && l[i + 1] == '-') {
      assert !(d[i] == '-' && d[i + 1] == '-');
    }
  }

  /** Every `slugify` result is a slug: `[a-z0-9-]` only, no dash at either end, no two dashes in a row. */
  lemma SlugifyIsSlug(text: string)
    ensures IsSlug(Slugify(text))
  {
    var k := Filter(text, Kept);
    FilterSpec(text, Kept);
    var t := Trim(k);
    TrimChars(k);
    assert forall i :: 0 <= i < |t| ==> Kept(t[i]);
    var c := CollapseRuns(t);
    CollapseShape(t);
    assert forall i :: 0 <= i < |c| ==> c[i] == '-' || IsAlnum(c[i]);
    StripShape(c);
    LowerShape(DropTrailingDashes(DropLeadingDashes(c)));
  }

  /** `slugify` is empty exactly when the text has no ASCII letter or digit (Sinhala text, say). */
  lemma SlugifyEmpty(text: string)
    ensures Slugify(text) == [] <==> !HasAlnum(text)
  {
    SlugifyAlnum(text);
    SlugifyIsSlug(text);
    var s := Slugify(text);
    if HasAlnum(text) {
      var i :| 0 <= i < |text| && IsAlnum(text[i]);
      FilterSpec(text, IsAlnum);
      assert text[i] in AlnumOf(text);
      assert AlnumOf(s) != [];
    } else {
      CountNone(text, IsAlnum);
    }
  }

  lemma {:induction false} CollapseFixpoint(s: string)
    requires forall i :: 0 <= i < |s| ==> !IsSpace(s[i]) && s[i] != '_'
    requires NoDoubleDash(s)
    ensures CollapseRuns(s) == s
  {
    if s != [] {
      var init := s[..|s| - 1];
      CollapseFixpoint(init);
      assert s == init + [s[|s| - 1]];
    }
  }

  lemma {:induction false} LowerFixpoint(s: string)
    requires forall i :: 0 <= i < |s| ==> !('A' <= s[i] <= 'Z')
    ensures ToLower(s) == s
  {
    if s != [] {
      LowerFixpoint(s[1..]);
      assert s == [s[0]] + s[1..];
    }
  }

  /** A slug is its own slug. */
  lemma SlugifyFixpoint(s: string)
    requires IsSlug(s)
    ensures Slugify(s) == s
  {
    FilterAll(s, Kept);
    if s != [] {
      TrimUnpadded(s);
    }
    CollapseFixpoint(s);
    LowerFixpoint(s);
  }

  /** Slugifying twice changes nothing more. */
  lemma SlugifyIdempotent(text: string)
    ensures Slugify(Slugify(text)) == Slugify(text)
  {
    SlugifyIsSlug(text);
    SlugifyFixpoint(Slugify(text));
  }

  predicate NonEmpty(s: string) {
    s != ""
  }

  /** `[title, city, district].filter(Boolean).join(' ')`. */
  function SlugBase(title: string, city: string, district: string): string {
    Join(Filter([title, city, district], NonEmpty), " ")
  }

  /** The slug the hook assigns: `(slugify(base) || 'item') + '-' + id.slice(-6)`. */
  function BuildSlug(title: string, city: string, district: string, id: string): string {
    var base := Slugify(SlugBase(title, city, district));
    (if base != "" then base else "item") + "-" + LastChars(id, 6)
  }

  lemma {:induction false} JoinAlnum(parts: seq<string>)
    ensures HasAlnum(Join(parts, " ")) <==> exists i :: 0 <= i < |parts| && HasAlnum(parts[i])
  {
    if |parts| > 1 {
      var rest := Join(parts[1..], " ");
      JoinAlnum(parts[1..]);
      var j := parts[0] + " " + rest;
      assert Join(parts, " ") == j;
      if HasAlnum(j) {
        var k :| 0 <= k < |j| && IsAlnum(j[k]);
        if k < |parts[0]| {
          assert IsAlnum(parts[0][k]);
        } else {
          assert IsAlnum(rest[k - |parts[0]| - 1]);
          var m :| 0 <= m < |parts[1..]| && HasAlnum(parts[1..][m]);
          assert parts[1..][m] == parts[m + 1];
        }
      }
      if exists i :: 0 <= i < |parts| && HasAlnum(parts[i]) {
        var i :| 0 <= i < |parts| && HasAlnum(parts[i]);
        if i == 0 {
          var k :| 0 <= k < |parts[0]| && IsAlnum(parts[0][k]);
          assert j[k] == parts[0][k];
        } else {
          assert parts[1..][i - 1] == parts[i];
          var k :| 0 <= k < |rest| && IsAlnum(rest[k]);
          assert j[|parts[0]| + 1 + k] == rest[k];
        }
      }
    }
  }

  /** The joined base has a letter or digit exactly when one of its three sources has. */
  lemma SlugBaseAlnum(title: string, city: string, district: string)
    ensures HasAlnum(SlugBase(title, city, district)) <==> HasAlnum(title) || HasAlnum(city) || HasAlnum(district)
  {
    var whole := [title, city, district];
    var parts := Filter(whole, NonEmpty);
    FilterSpec(whole, NonEmpty);
    JoinAlnum(parts);
    assert whole[0] == title && whole[1] == city && whole[2] == district;
    if HasAlnum(title) {
      assert title in parts;
    } else if HasAlnum(city) {
      assert city in parts;
    } else if HasAlnum(district) {
      assert district in parts;
    }
    if exists i :: 0 <= i < |parts| && HasAlnum(parts[i]) {
      var i :| 0 <= i < |parts| && HasAlnum(parts[i]);
      assert parts[i] in whole;
    }
  }

  /**
   * The hook's slug is the slugified non-empty parts when any of them has an
   * ASCII letter or digit, and `item` otherwise, followed by `-` and the last
   * six characters of the id; the base is a non-empty slug.
   */
  lemma BuildSlugShape(title: string, city: string, district: string, id: string)
    ensures var base := Slugify(SlugBase(title, city, district));
      BuildSlug(title, city, district, id) ==
        (if HasAlnum(title) || HasAlnum(city) || HasAlnum(district) then base else "item") + "-" + LastChars(id, 6)
    ensures HasAlnum(title) || HasAlnum(city) || HasAlnum(district) ==>
      var base := Slugify(SlugBase(title, city, district));
      base != "" && IsSlug(base) && AlnumOf(base) == ToLower(AlnumOf(SlugBase(title, city, district)))
  {
    var b := SlugBase(title, city, district);
    SlugBaseAlnum(title, city, district);
    SlugifyEmpty(b);
    SlugifyIsSlug(b);
    SlugifyAlnum(b);
  }

  /** Texts without ASCII letters or digits (Sinhala script, say) give the base `item`. */
  lemma NoLatinSlug(title: string, city: string, district: string, id: string)
    requires !HasAlnum(title) && !HasAlnum(city) && !HasAlnum(district)
    ensures BuildSlug(title, city, district, id) == "item-" + LastChars(id, 6)
  {
    BuildSlugShape(title, city, district, id);
  }

  /** The slug after the save hook: kept when none of its sources changed and it exists, rebuilt otherwise. */
  function SlugOnSave(slug: string, title: string, city: string, district: string, id: string,
                      modified: set<string>): string {
    if "title" !in modified && "district" !in modified && "city" !in modified && slug != "" then slug
    else BuildSlug(title, city, district, id)
  }

  /** The hook's slug is never empty, so a second save with nothing modified keeps it. */
  lemma SlugOnSaveStable(slug: string, title: string, city: string, district: string, id: string,
                         modified: set<string>)
    ensures SlugOnSave(slug, title, city, district, id, modified) != ""
    ensures var s1 := SlugOnSave(slug, title, city, district, id, modified);
      SlugOnSave(s1, title, city, district, id, {}) == s1
  {
  }

  /** The `status` enum. */
  datatype Status = Available | Reserved | Given

  function StatusName(s: Status): string {
    match s
    case Available => "available"
    case Reserved => "reserved"
    case Given => "given"
  }

  /** The enum validator: a stored status is one of the three names. */
  function ParseStatus(s: string): (r: Option<Status>)
    ensures r.Some? ==> StatusName(r.value) == s
    ensures r.None? <==> s !in {"available", "reserved", "given"}
  {
    if s == "available" then Some(Available)
    else if s == "reserved" then Some(Reserved)
    else if s == "given" then Some(Given)
    else None
  }

  /** Names and statuses correspond one to one. */
  lemma ParseStatusName(st: Status)
    ensures ParseStatus(StatusName(st)) == Some(st)
  {
  }

  const DefaultStatus: Status := Available
  const PlaceholderImage: string := "/images/placeholder.jpg"

  datatype Image = Image(url: string, isPrimary: bool)

  /** An entry of `requests`: who asked for the item. */
  datatype Request = Request(user: string, email: string, name: string)

  /** A stored item; `""` stands for an absent string field. */
  datatype Item = Item(
    id: string, title: string, description: string, category: string, district: string,
    city: string, condition: string, imageUrl: string, images: seq<Image>, status: Status,
    slug: string, owner: string, ownerName: string, ownerDistrict: string,
    requests: seq<Request>, createdAt: int)

  /** The fields of an item the slug hook reads and writes, updated in place. */
  class ItemDocument {
    const id: string
    var title: string
    var city: string
    var district: string
    var slug: string
    /** The paths `isModified` reports. */
    var modified: set<string>

    constructor (id: string, title: string, city: string, district: string)
      ensures this.id == id && this.title == title && this.city == city && this.district == district
      ensures slug == "" && modified == {"title", "city", "district"}
    {
      this.id := id;
      this.title := title;
      this.city := city;
      this.district := district;
      slug := "";
      modified := {"title", "city", "district"};
    }

    /** The `pre('save')` hook `buildSlug`. */
    method BuildSlugHook()
      modifies this
      ensures slug == SlugOnSave(old(slug), title, city, district, id, modified)
      ensures title == old(title) && city == old(city) && district == old(district) && modified == old(modified)
    {
      if "title" !in modified && "district" !in modified && "city" !in modified && slug != "" {
        return;
      }
      var base := Slugify(SlugBase(title, city, district));
      var baseSlug := if base != "" then base else "item";
      slug := baseSlug + "-" + LastChars(id, 6);
    }
  }
}
