/** `String.prototype.trim` as the message route applies it: strip the
    ECMAScript WhiteSpace and LineTerminator code points from both ends. */
module JsText {

  /** WhiteSpace (TAB, VT, FF, SP, NBSP, ZWNBSP and the Zs category) and
      LineTerminator (LF, CR, LS, PS) of ECMAScript section 12.2 and 12.3. */
  const WHITE_SPACE: set<char> := {
    '\t', '\n', '\U{000B}', '\U{000C}', '\r', ' ', '\U{00A0}', '\U{1680}',
    '\U{2000}', '\U{2001}', '\U{2002}', '\U{2003}', '\U{2004}', '\U{2005}',
    '\U{2006}', '\U{2007}', '\U{2008}', '\U{2009}', '\U{200A}',
    '\U{2028}', '\U{2029}', '\U{202F}', '\U{205F}', '\U{3000}', '\U{FEFF}'
  }

  predicate IsTrimmed(c: char) {
    c in WHITE_SPACE
  }

  predicate Blank(s: string) {
    forall i :: 0 <= i < |s| ==> IsTrimmed(s[i])
  }

  /** The scan from the left: the first index at or after `i` that does not
      hold white space (`|s|` when there is none); everything skipped is
      white space. */
  function FirstNonSpace(s: string, i: nat): (r: nat)
    requires i <= |s|
    ensures i <= r <= |s|
    ensures r == |s| || !IsTrimmed(s[r])
    ensures forall k :: i <= k < r ==> IsTrimmed(s[k])
    decreases |s| - i
  {
    if i < |s| && IsTrimmed(s[i]) then FirstNonSpace(s, i + 1) else i
  }

  /** The scan from the right, stopping at `lo`: the end of the text before
      `j`, so that everything from it up to `j` is white space and the
      character before it, when above `lo`, is not. */
  function EndOfText(s: string, lo: nat, j: nat): (r: nat)
    requires lo <= j <= |s|
    ensures lo <= r <= j
    ensures r == lo || !IsTrimmed(s[r - 1])
    ensures forall k :: r <= k < j ==> IsTrimmed(s[k])
  {
    if j > lo && IsTrimmed(s[j - 1]) then EndOfText(s, lo, j - 1) else j
  }

  /** `s.trim()`: the text between the two scans. */
  function Trim(s: string): string {
    var i := FirstNonSpace(s, 0);
    s[i..EndOfText(s, i, |s|)]
  }

  /** The trimmed text is the slice `s[i..j]` with white space only outside
      it and no white space at either of its ends. */
  lemma {:induction false} TrimIsSlice(s: string)
    ensures var i := FirstNonSpace(s, 0);
            var j := EndOfText(s, i, |s|);
            && 0 <= i <= j <= |s|
            && Trim(s) == s[i..j]
            && Blank(s[..i]) && Blank(s[j..])
            && (Trim(s) == [] || (!IsTrimmed(Trim(s)[0]) && !IsTrimmed(Trim(s)[|Trim(s)| - 1])))
  {
    var i := FirstNonSpace(s, 0);
    var j := EndOfText(s, i, |s|);
    assert Blank(s[..i]) by {
      forall k | 0 <= k < i ensures IsTrimmed(s[..i][k]) {
        assert s[..i][k] == s[k];
      }
    }
    assert Blank(s[j..]) by {
      forall k | 0 <= k < |s| - j ensures IsTrimmed(s[j..][k]) {
        assert s[j..][k] == s[j + k];
      }
    }
    if i < j {
      assert Trim(s)[0] == s[i];
      assert Trim(s)[|Trim(s)| - 1] == s[j - 1];
    }
  }

  /** A text is rejected as empty exactly when it consists of white space. */
  lemma {:induction false} TrimEmptyIffBlank(s: string)
    ensures Trim(s) == [] <==> Blank(s)
  {
    var i := FirstNonSpace(s, 0);
    var j := EndOfText(s, i, |s|);
    if Blank(s) {
      assert i == |s|;
    } else {
      var k :| 0 <= k < |s| && !IsTrimmed(s[k]);
      assert i <= k < |s|;
      assert i < j;
      assert |Trim(s)| == j - i;
    }
  }

  /** Trimming twice changes nothing more. */
  lemma {:induction false} TrimIdempotent(s: string)
    ensures Trim(Trim(s)) == Trim(s)
  {
    TrimIsSlice(s);
    var t := Trim(s);
    if t != [] {
      assert FirstNonSpace(t, 0) == 0;
      assert EndOfText(t, 0, |t|) == |t|;
      assert t[0..|t|] == t;
    }
  }
}
