/**
 * String utilities shared by the code generators, their decoders and the
 * build: prefix tests, first-occurrence search, splitting on a separator
 * character, joining, and the decimal rendering of a natural number.
 */
module Text {
  import opened Wrappers

  predicate StartsWith(s: string, p: string) {
    |p| <= |s| && s[..|p|] == p
  }

  /** `pat` occurs in `s` starting at index `i`. */
  predicate OccursAt(s: string, pat: string, i: int) {
    0 <= i && i + |pat| <= |s| && s[i..i + |pat|] == pat
  }

  /** First index at or after `k` where `pat` occurs in `s`. */
  function IndexFrom(s: string, pat: string, k: nat): (r: Option<nat>)
    requires k <= |s|
    ensures r.Some? ==> k <= r.value && OccursAt(s, pat, r.value)
    ensures r.Some? ==> forall j :: k <= j < r.value ==> !OccursAt(s, pat, j)
    ensures r.None? ==> forall j :: k <= j ==> !OccursAt(s, pat, j)
    decreases |s| - k
  {
    if k + |pat| > |s| then None
    else if s[k..k + |pat|] == pat then Some(k)
    else IndexFrom(s, pat, k + 1)
  }

  /** First occurrence of `pat` in `s` (the search of `String.prototype.indexOf`). */
  function IndexOf(s: string, pat: string): (r: Option<nat>)
    ensures r.Some? <==> exists i :: OccursAt(s, pat, i)
    ensures r.Some? ==> OccursAt(s, pat, r.value)
    ensures r.Some? ==> forall j :: 0 <= j < r.value ==> !OccursAt(s, pat, j)
  {
    IndexFrom(s, pat, 0)
  }

  /** `String.prototype.includes`. */
  predicate Contains(s: string, pat: string) {
    IndexOf(s, pat).Some?
  }

  /** Index of the first `c` in `s`. */
  function FirstIndex(s: string, c: char): (i: nat)
    requires c in s
    ensures i < |s| && s[i] == c
    ensures forall j :: 0 <= j < i ==> s[j] != c
  {
    if s[0] == c then 0
    else
      assert c in s[1..] by { var k :| 0 <= k < |s| && s[k] == c; assert s[1..][k - 1] == c; }
      var j := FirstIndex(s[1..], c);
      j + 1
  }

  /** The characterisation of FirstIndex fixes it. */
  lemma FirstIndexUnique(s: string, c: char, i: nat)
    requires i < |s| && s[i] == c
    requires forall j :: 0 <= j < i ==> s[j] != c
    ensures FirstIndex(s, c) == i
  {
  }

  /** Split `s` at every occurrence of `c` (`String.prototype.split` with a one-character separator). */
  function Split(s: string, c: char): (r: seq<string>)
    ensures |r| >= 1
    decreases |s|
  {
    if |s| == 0 then [""]
    else
      var rest := Split(s[1..], c);
      if s[0] == c then [""] + rest
      else [[s[0]] + rest[0]] + rest[1..]
  }

  /** No piece of a split holds the separator. */
  lemma {:induction false} SplitPiecesFree(s: string, c: char)
    ensures forall i :: 0 <= i < |Split(s, c)| ==> c !in Split(s, c)[i]
    decreases |s|
  {
    if |s| > 0 {
      SplitPiecesFree(s[1..], c);
      var rest := Split(s[1..], c);
      var r := Split(s, c);
      forall i | 0 <= i < |r| ensures c !in r[i] {
        if s[0] == c {
          if i > 0 { assert r[i] == rest[i - 1]; }
        } else if i == 0 {
          assert r[0] == [s[0]] + rest[0];
        } else {
          assert r[i] == rest[i];
        }
      }
    }
  }

  /** The lines of a text. */
  function Lines(s: string): seq<string> {
    Split(s, '\n')
  }

  /** A separator-free prefix glues onto the first piece. */
  lemma {:induction false} SplitPrefix(p: string, c: char, s: string)
    requires c !in p
    ensures Split(p + s, c) == [p + Split(s, c)[0]] + Split(s, c)[1..]
    decreases |p|
  {
    if |p| > 0 {
      var t := p + s;
      assert t[0] == p[0] && t[1..] == p[1..] + s;
      SplitPrefix(p[1..], c, s);
      assert [p[0]] + (p[1..] + Split(s, c)[0]) == p + Split(s, c)[0];
    } else {
      var r := Split(s, c);
      assert p + s == s && p + r[0] == r[0];
      assert [r[0]] + r[1..] == r;
    }
  }

  /** The pieces of a text that starts with `ch`, from the pieces of the rest. */
  function PushChar(ch: char, rest: seq<string>, c: char): seq<string>
    requires |rest| >= 1
  {
    if ch == c then [""] + rest else [[ch] + rest[0]] + rest[1..]
  }

  lemma SplitCons(s: string, c: char)
    requires |s| > 0
    ensures Split(s, c) == PushChar(s[0], Split(s[1..], c), c)
  {
  }

  lemma PushCharAppend(ch: char, x: seq<string>, y: seq<string>, c: char)
    requires |x| >= 1
    ensures PushChar(ch, x + y, c) == PushChar(ch, x, c) + y
  {
    if ch != c {
      assert (x + y)[0] == x[0];
      assert (x + y)[1..] == x[1..] + y;
    }
  }

  /** Splitting distributes over a separator between two pieces. */
  lemma {:induction false} SplitConcat(a: string, c: char, b: string)
    ensures Split(a + [c] + b, c) == Split(a, c) + Split(b, c)
    decreases |a|
  {
    var s := a + [c] + b;
    if |a| == 0 {
      assert s[0] == c && s[1..] == b;
    } else {
      assert s[0] == a[0] && s[1..] == a[1..] + [c] + b;
      SplitCons(s, c);
      SplitCons(a, c);
      SplitConcat(a[1..], c, b);
      PushCharAppend(a[0], Split(a[1..], c), Split(b, c), c);
    }
  }

  /** The last piece of a split is the text after the last separator, or the whole text when there is none. */
  lemma {:induction false} SplitLast(s: string, c: char)
    ensures var parts := Split(s, c); var l := parts[|parts| - 1];
      && (|parts| == 1 ==> l == s)
      && (|parts| > 1 ==> |l| < |s| && s[|s| - |l| - 1] == c && s[|s| - |l|..] == l)
    decreases |s|
  {
    if |s| > 0 {
      var t := s[1..];
      SplitLast(t, c);
      var rest := Split(t, c);
      var l := rest[|rest| - 1];
      assert s == [s[0]] + t;
      if |rest| > 1 {
        assert s[|s| - |l| - 1] == t[|t| - |l| - 1];
        assert s[|s| - |l|..] == t[|t| - |l|..];
      }
    }
  }

  /** Text without the separator is a single piece. */
  lemma {:induction false} SplitNone(s: string, c: char)
    requires c !in s
    ensures Split(s, c) == [s]
    decreases |s|
  {
    if |s| > 0 {
      assert c !in s[1..] by {
        forall k | 0 <= k < |s| - 1 ensures s[1..][k] != c { assert s[1..][k] == s[k + 1]; }
      }
      SplitNone(s[1..], c);
      assert [s[0]] + s[1..] == s;
    }
  }

  /** Everything before the first `c` and everything after it. */
  function TakeUntil(s: string, c: char): (r: Option<(string, string)>)
    ensures r.None? <==> c !in s
    ensures r.Some? ==> c !in r.value.0 && s == r.value.0 + [c] + r.value.1
  {
    if c in s then
      var i := FirstIndex(s, c);
      assert s == s[..i] + [c] + s[i + 1..];
      Some((s[..i], s[i + 1..]))
    else None
  }

  lemma TakeUntilConcat(a: string, c: char, b: string)
    requires c !in a
    ensures TakeUntil(a + [c] + b, c) == Some((a, b))
  {
    var s := a + [c] + b;
    assert s[|a|] == c;
    assert s[..|a|] == a;
    FirstIndexUnique(s, c, |a|);
    assert c in s;
    assert s[|a| + 1..] == b;
  }

  /** `s` with the prefix `p` removed, when `s` starts with `p`. */
  function DropPrefix(s: string, p: string): (r: Option<string>)
    ensures r.Some? <==> StartsWith(s, p)
    ensures r.Some? ==> s == p + r.value
  {
    if StartsWith(s, p) then
      assert s == s[..|p|] + s[|p|..];
      Some(s[|p|..])
    else None
  }

  lemma DropPrefixConcat(p: string, s: string)
    ensures DropPrefix(p + s, p) == Some(s)
  {
    assert (p + s)[..|p|] == p;
    assert (p + s)[|p|..] == s;
  }

  /** Two strings that differ at an index inside `p` cannot share the prefix `p`. */
  lemma NotStartsWith(s: string, p: string, i: nat)
    requires i < |s| && i < |p| && s[i] != p[i]
    ensures !StartsWith(s, p)
  {
    if |p| <= |s| {
      assert s[..|p|][i] != p[i];
    }
  }

  /** `Array.prototype.join`. */
  function Join(ss: seq<string>, sep: string): string {
    if |ss| == 0 then ""
    else if |ss| == 1 then ss[0]
    else ss[0] + sep + Join(ss[1..], sep)
  }

  /** Joining the pieces of a split with the same separator restores the text. */
  lemma {:induction false} JoinSplit(s: string, c: char)
    ensures Join(Split(s, c), [c]) == s
    decreases |s|
  {
    if |s| > 0 {
      var rest := Split(s[1..], c);
      JoinSplit(s[1..], c);
      if s[0] == c {
        var parts := [""] + rest;
        assert parts[1..] == rest;
        assert Join(parts, [c]) == "" + [c] + Join(rest, [c]);
      } else {
        var parts := [[s[0]] + rest[0]] + rest[1..];
        if |rest| == 1 {
          assert Join(parts, [c]) == [s[0]] + rest[0];
        } else {
          assert parts[1..] == rest[1..];
          assert Join(parts, [c]) == [s[0]] + rest[0] + [c] + Join(rest[1..], [c]);
        }
      }
      assert s == [s[0]] + s[1..];
    }
  }

  /** Joining with one more element appends the separator and that element. */
  lemma {:induction false} JoinSnoc(ss: seq<string>, x: string, sep: string)
    requires |ss| >= 1
    ensures Join(ss + [x], sep) == Join(ss, sep) + sep + x
  {
    if |ss| > 1 {
      assert (ss + [x])[1..] == ss[1..] + [x];
      JoinSnoc(ss[1..], x, sep);
    }
  }

  /** The pieces of every string of `ss`, in order. */
  function SplitAll(ss: seq<string>, c: char): seq<string> {
    if |ss| == 0 then [] else Split(ss[0], c) + SplitAll(ss[1..], c)
  }

  /** Splitting a join on the same separator splits each part. */
  lemma {:induction false} SplitJoin(ss: seq<string>, c: char)
    requires |ss| >= 1
    ensures Split(Join(ss, [c]), c) == SplitAll(ss, c)
  {
    if |ss| == 1 {
      assert SplitAll(ss[1..], c) == [];
    } else {
      SplitJoin(ss[1..], c);
      SplitConcat(ss[0], c, Join(ss[1..], [c]));
    }
  }

  lemma JoinThree(a: string, b: string, c: string, sep: string)
    ensures Join([a, b, c], sep) == a + sep + b + sep + c
  {
    assert [a, b, c][1..] == [b, c];
    assert [b, c][1..] == [c];
    assert Join([b, c], sep) == b + sep + c;
    assert Join([a, b, c], sep) == a + sep + (b + sep + c);
  }

  lemma JoinFour(a: string, b: string, c: string, d: string, sep: string)
    ensures Join([a, b, c, d], sep) == a + sep + b + sep + c + sep + d
  {
    assert [a, b, c, d][1..] == [b, c, d];
    JoinThree(b, c, d, sep);
    assert Join([a, b, c, d], sep) == a + sep + (b + sep + c + sep + d);
  }

  /** A line that ends the text is followed by one empty piece. */
  lemma SplitLastLine(f: string, c: char)
    requires c !in f
    ensures Split(f + [c], c) == [f, ""]
  {
    SplitConcat(f, c, "");
    SplitNone(f, c);
    assert f + [c] + "" == f + [c];
  }

  /** A first line that holds no separator becomes the first piece. */
  lemma SplitFirstLine(h: string, c: char, rest: string)
    requires c !in h
    ensures Split(h + [c] + rest, c) == [h] + Split(rest, c)
  {
    SplitConcat(h, c, rest);
    SplitNone(h, c);
  }

  /** The lines of a text framed by a header line and a footer line, each on its own line. */
  lemma SplitFrame(h: string, body: string, f: string, c: char)
    requires c !in h && c !in f
    ensures var r := Split([c] + h + [c] + body + [c] + f + [c], c);
      && |r| == |Split(body, c)| + 4
      && r[0] == "" && r[1] == h && r[|r| - 2] == f && r[|r| - 1] == ""
      && r[2..|r| - 2] == Split(body, c)
  {
    SplitFramePieces(h, body, f, c);
    FrameShape(Split([c] + h + [c] + body + [c] + f + [c], c), h, Split(body, c), f);
  }

  lemma SplitFramePieces(h: string, body: string, f: string, c: char)
    requires c !in h && c !in f
    ensures Split([c] + h + [c] + body + [c] + f + [c], c) == ["", h] + Split(body, c) + [f, ""]
  {
    var s1 := f + [c];
    SplitLastLine(f, c);
    var s2 := body + [c] + s1;
    SplitConcat(body, c, s1);
    var s3 := h + [c] + s2;
    SplitFirstLine(h, c, s2);
    SplitFirstLine("", c, s3);
    FrameText(h, body, f, c);
  }

  lemma FrameShape(r: seq<string>, h: string, mid: seq<string>, f: string)
    requires r == ["", h] + mid + [f, ""]
    ensures |r| == |mid| + 4
    ensures r[0] == "" && r[1] == h && r[|r| - 2] == f && r[|r| - 1] == ""
    ensures r[2..|r| - 2] == mid
  {
  }

  lemma FrameText(h: string, body: string, f: string, c: char)
    ensures [c] + h + [c] + body + [c] + f + [c] == "" + [c] + (h + [c] + (body + [c] + (f + [c])))
  {
  }

  /** An indented body followed by a last line: the indentation joins the body's first line. */
  lemma SplitIndentedBody(ind: string, body: string, f: string, c: char)
    requires c !in ind && c !in f
    ensures Split(ind + (body + [c] + f), c)
         == [ind + Split(body, c)[0]] + Split(body, c)[1..] + [f]
  {
    var b := Split(body, c);
    var s1 := body + [c] + f;
    SplitConcat(body, c, f);
    SplitNone(f, c);
    assert Split(s1, c) == b + [f];
    SplitPrefix(ind, c, s1);
    assert Split(s1, c)[0] == b[0];
    assert Split(s1, c)[1..] == b[1..] + [f];
  }

  /**
   * The lines of a text framed by a header line and a last line, whose body
   * starts on an indented line: the indentation joins the body's first line.
   */
  lemma SplitFrameIndented(h: string, ind: string, body: string, f: string, c: char)
    requires c !in h && c !in ind && c !in f
    ensures var r := Split([c] + h + [c] + ind + body + [c] + f, c);
      && |r| == |Split(body, c)| + 3
      && r[0] == "" && r[1] == h && r[2] == ind + Split(body, c)[0] && r[|r| - 1] == f
      && r[3..|r| - 1] == Split(body, c)[1..]
  {
    var b := Split(body, c);
    SplitFrameIndentedPieces(h, ind, body, f, c);
    IndentedShape(Split([c] + h + [c] + ind + body + [c] + f, c), h, ind + b[0], b[1..], f);
  }

  lemma SplitFrameIndentedPieces(h: string, ind: string, body: string, f: string, c: char)
    requires c !in h && c !in ind && c !in f
    ensures Split([c] + h + [c] + ind + body + [c] + f, c)
         == [""] + ([h] + ([ind + Split(body, c)[0]] + Split(body, c)[1..] + [f]))
  {
    var b := Split(body, c);
    var s2 := ind + (body + [c] + f);
    SplitIndentedBody(ind, body, f, c);
    var s3 := h + [c] + s2;
    SplitFirstLine(h, c, s2);
    SplitFirstLine("", c, s3);
    IndentedFrameText(h, ind, body, f, c);
  }

  lemma IndentedShape(r: seq<string>, h: string, first: string, rest: seq<string>, f: string)
    requires r == [""] + ([h] + ([first] + rest + [f]))
    ensures |r| == |rest| + 4
    ensures r[0] == "" && r[1] == h && r[2] == first && r[|r| - 1] == f
    ensures r[3..|r| - 1] == rest
  {
  }

  lemma IndentedFrameText(h: string, ind: string, body: string, f: string, c: char)
    ensures [c] + h + [c] + ind + body + [c] + f == "" + [c] + (h + [c] + (ind + (body + [c] + f)))
  {
  }

  /** The elements of every sequence of `ss`, in order. */
  function Flatten(ss: seq<seq<string>>): seq<string> {
    if |ss| == 0 then [] else ss[0] + Flatten(ss[1..])
  }

  /** The first `k` elements of a flattening are the first sequence, when that has `k` elements. */
  lemma FlattenCons(bs: seq<seq<string>>, k: nat)
    requires |bs| > 0 && |bs[0]| == k
    ensures |Flatten(bs)| >= k
    ensures Flatten(bs)[..k] == bs[0] && Flatten(bs)[k..] == Flatten(bs[1..])
  {
  }

  /** Every line of `ls` is free of `c`. */
  predicate NoneContain(ls: seq<string>, c: char) {
    forall i :: 0 <= i < |ls| ==> c !in ls[i]
  }

  /** Splitting pieces that hold no separator gives each piece back. */
  lemma {:induction false} SplitAllNone(ss: seq<string>, c: char)
    requires NoneContain(ss, c)
    ensures SplitAll(ss, c) == ss
  {
    if |ss| > 0 {
      SplitNone(ss[0], c);
      assert NoneContain(ss[1..], c) by {
        forall i | 0 <= i < |ss| - 1 ensures c !in ss[1..][i] { assert ss[1..][i] == ss[i + 1]; }
      }
      SplitAllNone(ss[1..], c);
      assert [ss[0]] + ss[1..] == ss;
    }
  }

  /** Lines joined by the separator split back into the same lines. */
  lemma SplitJoinNone(ss: seq<string>, c: char)
    requires |ss| >= 1 && NoneContain(ss, c)
    ensures Split(Join(ss, [c]), c) == ss
  {
    SplitJoin(ss, c);
    SplitAllNone(ss, c);
  }

  /** Each block joined by the separator, then all joined again. */
  function JoinEach(bs: seq<seq<string>>, sep: string): (r: seq<string>)
    ensures |r| == |bs|
  {
    if |bs| == 0 then [] else [Join(bs[0], sep)] + JoinEach(bs[1..], sep)
  }

  /** Every block has a line and no line holds the separator. */
  predicate BlocksWellFormed(bs: seq<seq<string>>, c: char) {
    forall i :: 0 <= i < |bs| ==> |bs[i]| >= 1 && NoneContain(bs[i], c)
  }

  /** Splitting a join of joined blocks gives all the blocks' lines, in order. */
  lemma {:induction false} SplitJoinBlocks(bs: seq<seq<string>>, c: char)
    requires |bs| >= 1 && BlocksWellFormed(bs, c)
    ensures Split(Join(JoinEach(bs, [c]), [c]), c) == Flatten(bs)
  {
    SplitJoin(JoinEach(bs, [c]), c);
    SplitAllJoinEach(bs, c);
  }

  lemma {:induction false} SplitAllJoinEach(bs: seq<seq<string>>, c: char)
    requires BlocksWellFormed(bs, c)
    ensures SplitAll(JoinEach(bs, [c]), c) == Flatten(bs)
  {
    if |bs| > 0 {
      SplitJoinNone(bs[0], c);
      assert BlocksWellFormed(bs[1..], c) by {
        forall i | 0 <= i < |bs| - 1 ensures |bs[1..][i]| >= 1 && NoneContain(bs[1..][i], c) {
          assert bs[1..][i] == bs[i + 1];
        }
      }
      SplitAllJoinEach(bs[1..], c);
    }
  }

  function DigitChar(d: nat): (r: char)
    requires d < 10
    ensures '0' <= r <= '9'
  {
    "0123456789"[d]
  }

  predicate AllDigits(s: string) {
    forall i :: 0 <= i < |s| ==> '0' <= s[i] <= '9'
  }

  /** A string of digits holds no character other than a digit. */
  lemma DigitsExclude(s: string, c: char)
    requires AllDigits(s) && !('0' <= c <= '9')
    ensures c !in s
  {
  }

  /** Decimal rendering of a natural number, as a template literal interpolates it. */
  function NatToString(n: nat): (r: string)
    ensures |r| >= 1 && AllDigits(r)
  {
    if n < 10 then [DigitChar(n)]
    else NatToString(n / 10) + [DigitChar(n % 10)]
  }

  /** Value of a string of decimal digits. */
  function DigitsValue(s: string): nat
    requires AllDigits(s)
  {
    if |s| == 0 then 0
    else DigitsValue(s[..|s| - 1]) * 10 + ((s[|s| - 1] as int) - ('0' as int))
  }

  /** The decimal rendering reads back as the number it renders. */
  lemma {:induction false} NatToStringRoundTrip(n: nat)
    ensures DigitsValue(NatToString(n)) == n
  {
    if n >= 10 {
      var s := NatToString(n);
      assert s[..|s| - 1] == NatToString(n / 10);
      NatToStringRoundTrip(n / 10);
    }
  }

  /** Distinct numbers render to distinct strings. */
  lemma NatToStringInjective(m: nat, n: nat)
    requires m != n
    ensures NatToString(m) != NatToString(n)
  {
    NatToStringRoundTrip(m);
    NatToStringRoundTrip(n);
  }
}
