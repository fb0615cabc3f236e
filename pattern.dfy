/**
 * Matching of an anchored alternation of literals, `^(a0|a1|...)$`, the
 * shape of the operating-system pattern in the machine schema.  A regex
 * engine tries the alternatives left to right; an alternative that consumes
 * a prefix but leaves input before the end anchor is abandoned and the next
 * one is tried.
 */
module Pattern {
  import opened Outcomes

  /** Consumes the literal `lit` at the start of `s`, giving back what is left. */
  function MatchLiteral(lit: string, s: string): (rest: Option<string>)
    ensures rest.Some? <==> |lit| <= |s| && s[..|lit|] == lit
    ensures rest.Some? ==> s == lit + rest.value
  {
    if lit == [] then Some(s)
    else if s != [] && s[0] == lit[0] then MatchLiteral(lit[1..], s[1..])
    else None
  }

  /** `^(alts[0]|alts[1]|...)$` matches `s`. */
  function FullMatch(alts: seq<string>, s: string): bool {
    if alts == [] then false
    else
      (match MatchLiteral(alts[0], s)
       case Some(rest) => rest == []
       case None => false)
      || FullMatch(alts[1..], s)
  }

  /** An anchored alternation of literals accepts exactly its alternatives. */
  lemma {:induction false} FullMatchIff(alts: seq<string>, s: string)
    ensures FullMatch(alts, s) <==> s in alts
  {
    if alts != [] {
      FullMatchIff(alts[1..], s);
      assert alts == [alts[0]] + alts[1..];
      var m := MatchLiteral(alts[0], s);
      if m.Some? && m.value == [] {
        assert s == alts[0] + [];
      }
      if s == alts[0] {
        assert s[..|alts[0]|] == alts[0];
        assert s == alts[0] + m.value;
      }
    }
  }
}
