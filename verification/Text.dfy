/** Python's whitespace handling on strings, as far as sentence segmentation uses it. */
module Text {

  /** Characters that `str.strip` removes and `\s` matches. */
  predicate IsSpace(c: char) {
    var n := c as int;
    || 0x09 <= n <= 0x0D || 0x1C <= n <= 0x20 || n == 0x85 || n == 0xA0 || n == 0x1680
    || 0x2000 <= n <= 0x200A || n == 0x2028 || n == 0x2029 || n == 0x202F || n == 0x205F || n == 0x3000
  }

  predicate Blank(s: string) {
    forall i :: 0 <= i < |s| ==> IsSpace(s[i])
  }

  function LStrip(s: string): string {
    if s != [] && IsSpace(s[0]) then LStrip(s[1..]) else s
  }

  function RStrip(s: string): string {
    if s != [] && IsSpace(s[|s| - 1]) then RStrip(s[..|s| - 1]) else s
  }

  function Strip(s: string): string {
    RStrip(LStrip(s))
  }

  /** The characters of `s` that are not whitespace, in order. */
  function Visible(s: string): string {
    if s == [] then []
    else Visible(s[..|s| - 1]) + (if IsSpace(s[|s| - 1]) then [] else [s[|s| - 1]])
  }

  lemma {:induction false} VisibleAppend(a: string, b: string)
    ensures Visible(a + b) == Visible(a) + Visible(b)
  {
    if b == [] {
      assert a + b == a;
    } else {
      assert (a + b)[..|a + b| - 1] == a + b[..|b| - 1];
      VisibleAppend(a, b[..|b| - 1]);
    }
  }

  lemma {:induction false} VisibleBlank(s: string)
    ensures Visible(s) == [] <==> Blank(s)
  {
    if s != [] {
      VisibleBlank(s[..|s| - 1]);
      if Blank(s[..|s| - 1]) && IsSpace(s[|s| - 1]) {
        forall i | 0 <= i < |s| ensures IsSpace(s[i]) {
          if i < |s| - 1 { assert s[i] == s[..|s| - 1][i]; }
        }
      }
    }
  }

  /** `LStrip` removes a blank prefix and stops at the first visible character. */
  lemma {:induction false} LStripSplits(s: string) returns (n: nat)
    ensures n <= |s| && Blank(s[..n]) && LStrip(s) == s[n..] && (n < |s| ==> !IsSpace(s[n]))
  {
    if s != [] && IsSpace(s[0]) {
      var m := LStripSplits(s[1..]);
      n := m + 1;
      forall i | 0 <= i < n ensures IsSpace(s[i]) {
        if i > 0 { assert s[i] == s[1..][..m][i - 1]; }
      }
    } else {
      n := 0;
    }
  }

  lemma {:induction false} RStripSplits(s: string) returns (n: nat)
    ensures n <= |s| && Blank(s[n..]) && RStrip(s) == s[..n] && (n > 0 ==> !IsSpace(s[n - 1]))
  {
    if s != [] && IsSpace(s[|s| - 1]) {
      n := RStripSplits(s[..|s| - 1]);
      forall i | n <= i < |s| ensures IsSpace(s[i]) {
        if i < |s| - 1 { assert s[i] == s[..|s| - 1][n..][i - n]; }
      }
      assert s[..|s| - 1][..n] == s[..n];
    } else {
      n := |s|;
    }
  }

  lemma VisibleLStrip(s: string)
    ensures Visible(LStrip(s)) == Visible(s)
  {
    var n := LStripSplits(s);
    assert s == s[..n] + s[n..];
    VisibleAppend(s[..n], s[n..]);
    VisibleBlank(s[..n]);
  }

  lemma VisibleStrip(s: string)
    ensures Visible(Strip(s)) == Visible(s)
  {
    VisibleLStrip(s);
    var t := LStrip(s);
    var n := RStripSplits(t);
    assert t == t[..n] + t[n..];
    VisibleAppend(t[..n], t[n..]);
    VisibleBlank(t[n..]);
  }

  /** A stripped string has no whitespace at either end. */
  lemma StripTrims(s: string)
    ensures
      var t := Strip(s);
      t != [] ==> !IsSpace(t[0]) && !IsSpace(t[|t| - 1])
  {
    var m := LStripSplits(s);
    var n := RStripSplits(LStrip(s));
  }

  /** Two texts that differ only in leading whitespace. */
  predicate SameFromInk(a: string, b: string) {
    LStrip(a) == LStrip(b)
  }

  lemma {:induction false} LStripBlank(w: string, s: string)
    requires Blank(w)
    ensures LStrip(w + s) == LStrip(s)
  {
    if w == [] {
      assert w + s == s;
    } else {
      assert (w + s)[1..] == w[1..] + s;
      LStripBlank(w[1..], s);
    }
  }

  lemma LStripOnce(s: string)
    ensures LStrip(LStrip(s)) == LStrip(s)
  {
    var n := LStripSplits(s);
  }

  lemma SameFromInkAppend(a: string, b: string, c: string)
    requires SameFromInk(a, b)
    ensures SameFromInk(a + c, b + c)
  {
    LStripHead(a, c);
    LStripHead(b, c);
  }

  lemma LStripHead(a: string, c: string)
    ensures LStrip(a + c) == LStrip(LStrip(a) + c)
  {
    var n := LStripSplits(a);
    assert a + c == a[..n] + (a[n..] + c);
    LStripBlank(a[..n], a[n..] + c);
  }
}
