/**
 * `String.prototype.replace` where the pattern is a string, or a regular
 * expression without capture groups and without the global flag, and the
 * replacement is a string. Only the first match is replaced. The replacement
 * text is not inserted literally: GetSubstitution (section 22.1.3.19.1 of
 * ECMAScript 2023) gives `$$`, `$&`, `` $` `` and `$'` a meaning. Without
 * capture groups, `$1` … `$99` and `$<` stay as they are.
 */
module JsReplace {
  import opened Wrappers
  import opened Text

  /**
   * GetSubstitution without capture groups. `matched` is the matched text,
   * `before` the text in front of the match and `after` the text behind it.
   */
  function Expand(rep: string, matched: string, before: string, after: string): string
    decreases |rep|
  {
    if |rep| == 0 then ""
    else if rep[0] == '$' && |rep| >= 2 && rep[1] == '$' then "$" + Expand(rep[2..], matched, before, after)
    else if rep[0] == '$' && |rep| >= 2 && rep[1] == '&' then matched + Expand(rep[2..], matched, before, after)
    else if rep[0] == '$' && |rep| >= 2 && rep[1] == '`' then before + Expand(rep[2..], matched, before, after)
    else if rep[0] == '$' && |rep| >= 2 && rep[1] == '\'' then after + Expand(rep[2..], matched, before, after)
    else [rep[0]] + Expand(rep[1..], matched, before, after)
  }

  /** `pat` does not occur in `s` before index `i`. */
  predicate NoneBefore(s: string, pat: string, i: nat) {
    forall j :: 0 <= j < i ==> !OccursAt(s, pat, j)
  }

  /** `s.replace(pat, rep)` as JavaScript runs it. */
  function ReplaceFirstJs(s: string, pat: string, rep: string): (r: string)
    ensures IndexOf(s, pat).None? ==> r == s
  {
    match IndexOf(s, pat)
    case None => s
    case Some(i) => s[..i] + Expand(rep, pat, s[..i], s[i + |pat|..]) + s[i + |pat|..]
  }

  /** The first occurrence of `pat` replaced by `rep`, taken literally. */
  function ReplaceFirst(s: string, pat: string, rep: string): (r: string)
    ensures IndexOf(s, pat).None? ==> r == s
    ensures IndexOf(s, pat).Some? ==> |r| == |s| - |pat| + |rep|
  {
    match IndexOf(s, pat)
    case None => s
    case Some(i) => s[..i] + rep + s[i + |pat|..]
  }

  // ---- properties ---------------------------------------------------------

  /** A replacement without `$` expands to itself. */
  lemma {:induction false} ExpandLiteral(rep: string, matched: string, before: string, after: string)
    requires '$' !in rep
    ensures Expand(rep, matched, before, after) == rep
    decreases |rep|
  {
    if |rep| > 0 {
      assert '$' !in rep[1..] by {
        forall k | 0 <= k < |rep| - 1 ensures rep[1..][k] != '$' { assert rep[1..][k] == rep[k + 1]; }
      }
      ExpandLiteral(rep[1..], matched, before, after);
      assert [rep[0]] + rep[1..] == rep;
    }
  }

  /** A `$`-free prefix of the replacement is copied as it is. */
  lemma {:induction false} ExpandLiteralPrefix(x: string, y: string, matched: string, before: string, after: string)
    requires '$' !in x
    ensures Expand(x + y, matched, before, after) == x + Expand(y, matched, before, after)
    decreases |x|
  {
    if |x| > 0 {
      var s := x + y;
      assert s[0] == x[0] && s[1..] == x[1..] + y;
      assert '$' !in x[1..] by {
        forall k | 0 <= k < |x| - 1 ensures x[1..][k] != '$' { assert x[1..][k] == x[k + 1]; }
      }
      ExpandLiteralPrefix(x[1..], y, matched, before, after);
      assert [x[0]] + (x[1..] + Expand(y, matched, before, after)) == x + Expand(y, matched, before, after);
    } else {
      assert x + y == y;
    }
  }

  /** `$$` expands to a single `$`. */
  lemma ExpandEscapedDollar(s: string, matched: string, before: string, after: string)
    requires |s| >= 2 && s[0] == '$' && s[1] == '$'
    ensures Expand(s, matched, before, after) == "$" + Expand(s[2..], matched, before, after)
  {
  }

  lemma DoubleDollarThen(z: string)
    ensures var t := "$$" + z; |t| >= 2 && t[0] == '$' && t[1] == '$' && t[2..] == z
  {
  }

  /** A single `$$` between `$`-free text collapses to `$`. */
  lemma ExpandOneDoubleDollar(x: string, z: string, matched: string, before: string, after: string)
    requires '$' !in x && '$' !in z
    ensures Expand(x + "$$" + z, matched, before, after) == x + "$" + z
  {
    var t := "$$" + z;
    assert x + "$$" + z == x + t;
    ExpandLiteralPrefix(x, t, matched, before, after);
    DoubleDollarThen(z);
    ExpandEscapedDollar(t, matched, before, after);
    ExpandLiteral(z, matched, before, after);
    assert x + ("$" + z) == x + "$" + z;
  }

  /** Text whose first occurrence of `pat` starts right after `a` is spliced around it. */
  lemma ReplaceFirstAt(a: string, pat: string, b: string, rep: string)
    requires NoneBefore(a + pat + b, pat, |a|)
    ensures ReplaceFirst(a + pat + b, pat, rep) == a + rep + b
  {
    var s := a + pat + b;
    assert OccursAt(s, pat, |a|) by { assert s[|a|..|a| + |pat|] == pat; }
    assert IndexOf(s, pat) == Some(|a|);
    assert s[..|a|] == a && s[|a| + |pat|..] == b;
  }

  /** The same splice as JavaScript runs it: the replacement is expanded against the text around the match. */
  lemma ReplaceFirstJsAt(a: string, pat: string, b: string, rep: string)
    requires NoneBefore(a + pat + b, pat, |a|)
    ensures ReplaceFirstJs(a + pat + b, pat, rep) == a + Expand(rep, pat, a, b) + b
  {
    var s := a + pat + b;
    assert OccursAt(s, pat, |a|) by { assert s[|a|..|a| + |pat|] == pat; }
    assert IndexOf(s, pat) == Some(|a|);
    assert s[..|a|] == a && s[|a| + |pat|..] == b;
  }

  /** Text that is exactly the pattern is replaced as a whole. */
  lemma ReplaceFirstWhole(pat: string, rep: string)
    ensures ReplaceFirst(pat, pat, rep) == rep
    ensures ReplaceFirstJs(pat, pat, rep) == Expand(rep, pat, "", "")
  {
    assert OccursAt(pat, pat, 0) by { assert pat[0..|pat|] == pat; }
    assert IndexOf(pat, pat) == Some(0);
    assert pat[..0] == "" && pat[|pat|..] == "";
    var e := Expand(rep, pat, "", "");
    assert "" + rep + "" == rep;
    assert "" + e + "" == e;
  }

  /** Without a `$` in the replacement, JavaScript's replace is the literal one. */
  lemma ReplaceFirstJsLiteral(s: string, pat: string, rep: string)
    requires '$' !in rep
    ensures ReplaceFirstJs(s, pat, rep) == ReplaceFirst(s, pat, rep)
  {
    match IndexOf(s, pat)
    case None =>
    case Some(i) => ExpandLiteral(rep, pat, s[..i], s[i + |pat|..]);
  }
}
