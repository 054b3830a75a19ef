/** The period rewrite of the merge script: the regular expression `([0-9]{4})`
    replaced by `year/\1`, applied the way a regular-expression substitution
    applies it (leftmost match first, matches never overlap, every match is
    replaced). */
module Periods {

  const YearPrefix: string := "year/"

  /** The character class `[0-9]`: ASCII digits only. */
  predicate IsDigit(c: char) {
    '0' <= c <= '9'
  }

  /** The pattern `[0-9]{4}` matches at the start of `s`. */
  predicate StartsWithYear(s: string) {
    |s| >= 4 && IsDigit(s[0]) && IsDigit(s[1]) && IsDigit(s[2]) && IsDigit(s[3])
  }

  /** Some position of `s` starts a run of four digits. */
  predicate HasYear(s: string) {
    exists i :: 0 <= i <= |s| && StartsWithYear(s[i..])
  }

  /** The substitution: scanning from the left, every four-digit match is
      replaced by itself behind `year/` and the scan resumes after it; any
      other character is copied and the scan moves on by one. */
  function YearRewrite(s: string): (t: string)
    ensures |t| >= |s|
    decreases |s|
  {
    if |s| == 0 then ""
    else if StartsWithYear(s) then YearPrefix + s[..4] + YearRewrite(s[4..])
    else [s[0]] + YearRewrite(s[1..])
  }

  /** Removes the `year/` written in front of each four-digit token. */
  function YearUnrewrite(t: string): string
    decreases |t|
  {
    if |t| == 0 then ""
    else if |t| >= 9 && t[..5] == YearPrefix && StartsWithYear(t[5..]) then t[5..9] + YearUnrewrite(t[9..])
    else [t[0]] + YearUnrewrite(t[1..])
  }

  /** A bare year `YYYY` becomes the period token `year/YYYY`. */
  lemma BareYearBecomesToken(y: string)
    requires |y| == 4 && StartsWithYear(y)
    ensures YearRewrite(y) == "year/" + y
  {
    assert y[..4] == y;
    assert y[4..] == "";
  }

  /** The rewrite never shortens its input, and it lengthens every input that
      holds a four-digit run by at least the five characters of `year/`. */
  lemma {:induction false} RewriteLength(s: string)
    ensures |YearRewrite(s)| >= |s|
    ensures HasYear(s) ==> |YearRewrite(s)| >= |s| + 5
    decreases |s|
  {
    if |s| == 0 {
    } else if StartsWithYear(s) {
      RewriteLength(s[4..]);
    } else {
      RewriteLength(s[1..]);
      if HasYear(s) {
        var i :| 0 <= i <= |s| && StartsWithYear(s[i..]);
        assert i != 0;
        assert s[1..][i - 1..] == s[i..];
        assert HasYear(s[1..]);
      }
    }
  }

  /** A value without a four-digit run is returned as it is. */
  lemma {:induction false} NoYearUnchanged(s: string)
    requires !HasYear(s)
    ensures YearRewrite(s) == s
    decreases |s|
  {
    if |s| > 0 {
      assert s[0..] == s;
      assert !StartsWithYear(s);
      assert forall i :: 0 <= i <= |s[1..]| ==> s[1..][i..] == s[i + 1..];
      NoYearUnchanged(s[1..]);
    }
  }

  /** The rewrite changes a value exactly when the value holds a run of four
      digits. */
  lemma UnchangedIffNoYear(s: string)
    ensures YearRewrite(s) == s <==> !HasYear(s)
  {
    RewriteLength(s);
    if !HasYear(s) {
      NoYearUnchanged(s);
    }
  }

  /** Where the rewrite of a non-empty value starts. */
  lemma FirstOfRewrite(u: string)
    requires |u| > 0
    ensures |YearRewrite(u)| > 0
    ensures YearRewrite(u)[0] == if StartsWithYear(u) then 'y' else u[0]
  {
  }

  /** The first `k` characters of `YearRewrite(u)` that are not `y` were all
      copied from `u`: no match started at any of those positions. */
  lemma {:induction false} CopiedPrefix(u: string, k: nat)
    requires k <= |YearRewrite(u)|
    requires forall i :: 0 <= i < k ==> YearRewrite(u)[i] != 'y'
    ensures k <= |u| && u[..k] == YearRewrite(u)[..k]
    ensures forall i :: 0 <= i < k ==> !StartsWithYear(u[i..])
    decreases k
  {
    if k > 0 {
      assert |u| > 0;
      assert u[0..] == u;
      FirstOfRewrite(u);
      var r := YearRewrite(u[1..]);
      assert YearRewrite(u) == [u[0]] + r;
      forall i | 0 <= i < k - 1
        ensures r[i] != 'y'
      {
        assert r[i] == YearRewrite(u)[i + 1];
      }
      CopiedPrefix(u[1..], k - 1);
      forall i | 0 <= i < k
        ensures !StartsWithYear(u[i..])
      {
        if i > 0 {
          assert u[1..][i - 1..] == u[i..];
        }
      }
      assert u[..k] == [u[0]] + u[1..][..k - 1];
    }
  }

  /** Where the rewrite copies the first character, its output does not start
      with a `year/` token: the token's digits would have been a match. */
  lemma CopyIsNoToken(s: string)
    requires |s| > 0 && !StartsWithYear(s)
    ensures var t := YearRewrite(s); !(|t| >= 9 && t[..5] == YearPrefix && StartsWithYear(t[5..]))
  {
    var t := YearRewrite(s);
    var rest := YearRewrite(s[1..]);
    assert t == [s[0]] + rest;
    if |t| >= 9 && t[..5] == YearPrefix && StartsWithYear(t[5..]) {
      forall i | 0 <= i < 8
        ensures rest[i] != 'y'
      {
        assert rest[i] == t[i + 1];
        if i >= 4 {
          assert t[i + 1] == t[5..][i - 4];
        } else {
          assert t[i + 1] == t[..5][i + 1];
        }
      }
      CopiedPrefix(s[1..], 8);
      assert !StartsWithYear(s[1..][4..]);
      forall i | 0 <= i < 4
        ensures s[1..][4..][i] == t[5..][i]
      {
        assert s[1..][4..][i] == s[1..][..8][4 + i];
        assert rest[..8][4 + i] == t[5..][i];
      }
      assert false;
    }
  }

  /** `YearUnrewrite` undoes the rewrite: no information is lost, and every
      `year/` the rewrite wrote can be told apart from the text around it. */
  lemma {:induction false} UnrewriteRewrite(s: string)
    ensures YearUnrewrite(YearRewrite(s)) == s
    decreases |s|
  {
    if |s| == 0 {
    } else if StartsWithYear(s) {
      var t := YearRewrite(s);
      var rest := YearRewrite(s[4..]);
      assert t == YearPrefix + s[..4] + rest;
      assert t[..5] == YearPrefix;
      assert t[5..] == s[..4] + rest;
      assert t[5..9] == s[..4];
      assert t[9..] == rest;
      UnrewriteRewrite(s[4..]);
      assert s == s[..4] + s[4..];
    } else {
      var t := YearRewrite(s);
      var rest := YearRewrite(s[1..]);
      assert t == [s[0]] + rest;
      assert t[1..] == rest;
      CopyIsNoToken(s);
      UnrewriteRewrite(s[1..]);
    }
  }

  /** A prefix without digits is copied as it is: no match can start inside
      it. */
  lemma {:induction false} DigitFreePrefix(p: string, s: string)
    requires forall i :: 0 <= i < |p| ==> !IsDigit(p[i])
    ensures YearRewrite(p + s) == p + YearRewrite(s)
    decreases |p|
  {
    if |p| > 0 {
      var t := p + s;
      assert t[0] == p[0] && !StartsWithYear(t);
      assert t[1..] == p[1..] + s;
      DigitFreePrefix(p[1..], s);
      assert YearRewrite(t) == [p[0]] + YearRewrite(p[1..] + s);
      assert p + YearRewrite(s) == [p[0]] + (p[1..] + YearRewrite(s));
    } else {
      assert p + s == s && p + YearRewrite(s) == YearRewrite(s);
    }
  }

  /** The rewrite is not idempotent: rewriting a period token again gives it a
      second prefix. */
  lemma RewriteNotIdempotent(y: string)
    requires |y| == 4 && StartsWithYear(y)
    ensures YearRewrite(y) == YearPrefix + y
    ensures YearRewrite(YearRewrite(y)) == YearPrefix + YearPrefix + y
  {
    BareYearBecomesToken(y);
    DigitFreePrefix(YearPrefix, y);
  }
}
