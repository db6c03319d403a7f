/**
 * The order-independent identifier of a two-party conversation. The backend
 * route helper, the message model's key builder and the client context each
 * carry a copy of this one rule, so the model defines it once.
 */
module ConversationKey {
  import opened Wrappers
  import opened Strings

  const Separator: char := ':'

  /**
   * `null` when either id is missing (empty), otherwise the two ids in
   * JavaScript's default string order joined by `:`.
   */
  function BuildConversationId(a: string, b: string): (k: Option<string>)
    ensures k.None? <==> (a == "" || b == "")
    ensures k.Some? ==> exists x, y :: {x, y} == {a, b} && LexLe(x, y) && k.value == x + [Separator] + y
  {
    if a == "" || b == "" then None
    else
      MinMaxSymmetric(a, b);
      Some(MinString(a, b) + [Separator] + MaxString(a, b))
  }

  /** The key does not depend on which participant is named first. */
  lemma Symmetric(a: string, b: string)
    ensures BuildConversationId(a, b) == BuildConversationId(b, a)
  {
    MinMaxSymmetric(a, b);
  }

  /** For ids without `:` the key splits back into the sorted pair of participants. */
  lemma SplitRecoversParticipants(a: string, b: string)
    requires a != "" && b != "" && Separator !in a && Separator !in b
    ensures var parts := Split(BuildConversationId(a, b).value, Separator);
            |parts| == 2 && {parts[0], parts[1]} == {a, b} && LexLe(parts[0], parts[1])
  {
    MinMaxSymmetric(a, b);
    SplitPair(MinString(a, b), MaxString(a, b), Separator);
  }

  /** For ids without `:` two pairs share a key exactly when they are the same unordered pair. */
  lemma KeyIdentifiesPair(a: string, b: string, c: string, d: string)
    requires a != "" && b != "" && c != "" && d != ""
    requires Separator !in a && Separator !in b && Separator !in c && Separator !in d
    ensures BuildConversationId(a, b) == BuildConversationId(c, d) <==> {a, b} == {c, d}
  {
    SplitRecoversParticipants(a, b);
    SplitRecoversParticipants(c, d);
    MinMaxSymmetric(a, b);
    MinMaxSymmetric(c, d);
    if {a, b} == {c, d} {
      if a == c {
        assert b == d;
      } else {
        assert a == d && b == c;
        Symmetric(a, b);
      }
    }
  }
}
