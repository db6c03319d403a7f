/**
 * The server's CORS policy: origins are compared without one trailing `/`;
 * the allow-list is the comma-separated `ALLOWED_ORIGINS` (each part trimmed,
 * empty parts dropped), `APP_URL`, `CLIENT_URL` and the two local Vite
 * origins; a request without an `Origin` header is always allowed. The
 * environment is a value; an unset variable is `""`.
 */
module Cors {
  import opened Strings
  import opened Sorting

  const LocalVite: string := "http://localhost:5173"
  const LoopbackVite: string := "http://127.0.0.1:5173"

  /** `normalizeOrigin`: drops one trailing `/`; an empty origin is returned as it is. */
  function NormalizeOrigin(o: string): string {
    if o != [] && o[|o| - 1] == '/' then o[..|o| - 1] else o
  }

  /**
   * Normalising undoes one appended `/` and only one; an origin that does not
   * end in `/` (the empty one included) is its own normal form.
   */
  lemma NormalizeOriginSpec(o: string)
    ensures NormalizeOrigin(o + "/") == o
    ensures NormalizeOrigin(o + "//") == o + "/"
    ensures (o == [] || o[|o| - 1] != '/') ==> NormalizeOrigin(o) == o
    ensures o == NormalizeOrigin(o) || o == NormalizeOrigin(o) + "/"
  {
    assert (o + "/")[..|o|] == o;
    assert (o + "//")[..|o| + 1] == o + "/";
  }

  /** The process environment, with `""` for a variable that is not set. */
  datatype Env = Env(allowedOrigins: string, appUrl: string, clientUrl: string)

  predicate NonBlank(s: string) {
    s != ""
  }

  /** `ALLOWED_ORIGINS.split(',').map(trim).filter(Boolean)`. */
  function OriginParts(raw: string): seq<string> {
    Filter(Map(Split(raw, ','), Trim), NonBlank)
  }

  /** Trimming keeps a string free of any character its input lacks. */
  lemma TrimWithout(s: string, c: char)
    requires c !in s
    ensures c !in Trim(s)
  {
    TrimIsCore(s);
  }

  /** Trimmed, non-blank pieces: each is non-empty, its own trimming, and free of `c` if the pieces are. */
  lemma TrimmedPiecesShape(pieces: seq<string>, c: char)
    requires forall i :: 0 <= i < |pieces| ==> c !in pieces[i]
    ensures forall p :: p in Filter(Map(pieces, Trim), NonBlank) ==> p != "" && Trim(p) == p && c !in p
  {
    var trimmed := Map(pieces, Trim);
    FilterMembers(trimmed, NonBlank);
    forall p | p in Filter(trimmed, NonBlank)
      ensures p != "" && Trim(p) == p && c !in p
    {
      var i :| 0 <= i < |trimmed| && trimmed[i] == p;
      TrimIdempotent(pieces[i]);
      TrimWithout(pieces[i], c);
    }
  }

  /** Every piece that is not blank is kept, trimmed. */
  lemma TrimmedPiecesComplete(pieces: seq<string>)
    ensures forall i :: 0 <= i < |pieces| && Trim(pieces[i]) != "" ==> Trim(pieces[i]) in Filter(Map(pieces, Trim), NonBlank)
  {
    var trimmed := Map(pieces, Trim);
    FilterMembers(trimmed, NonBlank);
    forall i | 0 <= i < |pieces| && Trim(pieces[i]) != ""
      ensures Trim(pieces[i]) in Filter(trimmed, NonBlank)
    {
      assert trimmed[i] == Trim(pieces[i]);
    }
  }

  /**
   * Every configured part is non-empty, trimmed and free of commas, and every
   * comma-separated piece that is not blank is among them, trimmed.
   */
  lemma OriginPartsSpec(raw: string)
    ensures forall p :: p in OriginParts(raw) ==> p != "" && Trim(p) == p && ',' !in p
    ensures forall i :: 0 <= i < |Split(raw, ',')| && Trim(Split(raw, ',')[i]) != "" ==>
      Trim(Split(raw, ',')[i]) in OriginParts(raw)
  {
    TrimmedPiecesShape(Split(raw, ','), ',');
    TrimmedPiecesComplete(Split(raw, ','));
  }

  /** The candidates in the order they are listed, before blanks are dropped. */
  function Candidates(env: Env): seq<string> {
    OriginParts(env.allowedOrigins) + [env.appUrl, env.clientUrl, LocalVite, LoopbackVite]
  }

  /** `new Set([...].filter(Boolean).map(normalizeOrigin))`. */
  function AllowedOrigins(env: Env): set<string> {
    var list := Map(Filter(Candidates(env), NonBlank), NormalizeOrigin);
    set o | o in list
  }

  /** A member of the normalised list comes from a non-blank candidate. */
  lemma NormalizedFrom(cands: seq<string>, o: string)
    requires o in Map(Filter(cands, NonBlank), NormalizeOrigin)
    ensures exists c :: c in cands && c != "" && NormalizeOrigin(c) == o
  {
    var kept := Filter(cands, NonBlank);
    FilterMembers(cands, NonBlank);
    var i :| 0 <= i < |kept| && Map(kept, NormalizeOrigin)[i] == o;
    assert kept[i] in cands && NonBlank(kept[i]);
  }

  /** The normal form of every non-blank candidate is in the normalised list. */
  lemma NormalizedOf(cands: seq<string>, c: string)
    requires c in cands && c != ""
    ensures NormalizeOrigin(c) in Map(Filter(cands, NonBlank), NormalizeOrigin)
  {
    var kept := Filter(cands, NonBlank);
    FilterMembers(cands, NonBlank);
    var j :| 0 <= j < |cands| && cands[j] == c;
    assert NonBlank(cands[j]);
    assert c in kept;
    var i :| 0 <= i < |kept| && kept[i] == c;
    assert Map(kept, NormalizeOrigin)[i] == NormalizeOrigin(c);
  }

  /**
   * An origin is in the set exactly when it is the normal form of a
   * non-blank candidate.
   */
  lemma AllowedOriginsSpec(env: Env, o: string)
    ensures o in AllowedOrigins(env) <==>
      exists c :: c in Candidates(env) && c != "" && NormalizeOrigin(c) == o
  {
    var cands := Candidates(env);
    if o in AllowedOrigins(env) {
      NormalizedFrom(cands, o);
    }
    if c :| c in cands && c != "" && NormalizeOrigin(c) == o {
      NormalizedOf(cands, c);
    }
  }

  /** The two local Vite origins are allowed whatever the environment says. */
  lemma LocalOriginsAllowed(env: Env)
    ensures LocalVite in AllowedOrigins(env)
    ensures LoopbackVite in AllowedOrigins(env)
  {
    var c := Candidates(env);
    assert c[|c| - 2] == LocalVite && c[|c| - 1] == LoopbackVite;
    assert NormalizeOrigin(LocalVite) == LocalVite;
    assert NormalizeOrigin(LoopbackVite) == LoopbackVite;
    AllowedOriginsSpec(env, LocalVite);
    AllowedOriginsSpec(env, LoopbackVite);
  }

  /** A part of `ALLOWED_ORIGINS` is allowed with or without its trailing `/`. */
  lemma ConfiguredOriginAllowed(env: Env, i: int)
    requires 0 <= i < |Split(env.allowedOrigins, ',')|
    requires Trim(Split(env.allowedOrigins, ',')[i]) != ""
    ensures NormalizeOrigin(Trim(Split(env.allowedOrigins, ',')[i])) in AllowedOrigins(env)
  {
    var p := Trim(Split(env.allowedOrigins, ',')[i]);
    OriginPartsSpec(env.allowedOrigins);
    assert p in Candidates(env);
    AllowedOriginsSpec(env, NormalizeOrigin(p));
  }

  /** `APP_URL` and `CLIENT_URL`, when set, are allowed. */
  lemma AppUrlsAllowed(env: Env)
    ensures env.appUrl != "" ==> NormalizeOrigin(env.appUrl) in AllowedOrigins(env)
    ensures env.clientUrl != "" ==> NormalizeOrigin(env.clientUrl) in AllowedOrigins(env)
  {
    var c := Candidates(env);
    assert env.appUrl in c && env.clientUrl in c;
    AllowedOriginsSpec(env, NormalizeOrigin(env.appUrl));
    AllowedOriginsSpec(env, NormalizeOrigin(env.clientUrl));
  }

  /** What the origin callback decides; a refusal is an error the error handler answers. */
  datatype Decision = Allow | Deny(status: int, message: string)

  /** The `origin` callback of the CORS middleware. */
  function Decide(allowed: set<string>, origin: string): Decision {
    if origin == "" then Allow
    else if NormalizeOrigin(origin) in allowed then Allow
    else Deny(403, "CORS: origin " + origin + " is not allowed")
  }

  /**
   * A request is allowed exactly when it has no origin or its normal form is
   * listed; a refusal is a 403 naming the origin as the request sent it.
   */
  lemma DecideSpec(env: Env, origin: string)
    ensures Decide(AllowedOrigins(env), origin).Allow? <==>
      origin == "" || exists c :: c in Candidates(env) && c != "" && NormalizeOrigin(c) == NormalizeOrigin(origin)
    ensures Decide(AllowedOrigins(env), origin).Deny? ==>
      Decide(AllowedOrigins(env), origin) == Deny(403, "CORS: origin " + origin + " is not allowed")
  {
    AllowedOriginsSpec(env, NormalizeOrigin(origin));
  }

  /** A browser that adds a trailing `/` to a listed origin is still allowed. */
  lemma TrailingSlashAllowed(env: Env, o: string)
    requires o in AllowedOrigins(env)
    ensures Decide(AllowedOrigins(env), o + "/") == Allow
  {
    NormalizeOriginSpec(o);
  }
}
