/** The two whitespace functions of Go's `strings` package that the shell uses:
    `strings.TrimSpace` on the line read and `strings.Fields` in `parseArgs`. */
module Text {

  /** Go's `unicode.IsSpace`: the characters with the Unicode White_Space property. */
  predicate IsSpace(c: char) {
    ('\t' <= c <= '\r') || c == ' ' || c == '\U{85}' || c == '\U{A0}' || c == '\U{1680}'
    || ('\U{2000}' <= c <= '\U{200A}') || c == '\U{2028}' || c == '\U{2029}'
    || c == '\U{202F}' || c == '\U{205F}' || c == '\U{3000}'
  }

  predicate AllSpace(s: string) {
    forall i :: 0 <= i < |s| ==> IsSpace(s[i])
  }

  predicate NoSpace(s: string) {
    forall i :: 0 <= i < |s| ==> !IsSpace(s[i])
  }

  /** The first index at or after `i` that does not hold whitespace (or `|s|`). */
  function SkipFrom(s: string, i: nat): (k: nat)
    requires i <= |s|
    ensures i <= k <= |s|
    decreases |s| - i
  {
    if i < |s| && IsSpace(s[i]) then SkipFrom(s, i + 1) else i
  }

  /** The end of `s[..j]` once its trailing whitespace is cut off. */
  function SkipBack(s: string, j: nat): (k: nat)
    requires j <= |s|
    ensures k <= j
  {
    if j > 0 && IsSpace(s[j - 1]) then SkipBack(s, j - 1) else j
  }

  lemma {:induction false} SkipFromSkipsSpace(s: string, i: nat)
    requires i <= |s|
    ensures forall m :: i <= m < SkipFrom(s, i) ==> IsSpace(s[m])
    ensures SkipFrom(s, i) < |s| ==> !IsSpace(s[SkipFrom(s, i)])
    decreases |s| - i
  {
    if i < |s| && IsSpace(s[i]) {
      SkipFromSkipsSpace(s, i + 1);
    }
  }

  lemma {:induction false} SkipBackSkipsSpace(s: string, j: nat)
    requires j <= |s|
    ensures forall m :: SkipBack(s, j) <= m < j ==> IsSpace(s[m])
    ensures SkipBack(s, j) > 0 ==> !IsSpace(s[SkipBack(s, j) - 1])
  {
    if j > 0 && IsSpace(s[j - 1]) {
      SkipBackSkipsSpace(s, j - 1);
    }
  }

  /** `strings.TrimSpace`: the middle of `s` once the whitespace at both ends is cut off. */
  function TrimSpace(s: string): string {
    var a, b := SkipFrom(s, 0), SkipBack(s, |s|);
    if a < b then s[a..b] else ""
  }

  /** `strings.TrimSpace` removes exactly the leading and the trailing whitespace:
      what it returns is a slice of `s` that starts and ends with a non-space
      character, and everything outside that slice is whitespace. */
  lemma TrimSpaceCuts(s: string)
    ensures var a, r := SkipFrom(s, 0), TrimSpace(s);
      && a + |r| <= |s|
      && r == s[a..a + |r|]
      && (forall m :: 0 <= m < |s| && !(a <= m < a + |r|) ==> IsSpace(s[m]))
      && (r != [] ==> !IsSpace(r[0]) && !IsSpace(r[|r| - 1]))
      && (r == [] <==> AllSpace(s))
  {
    var a, b := SkipFrom(s, 0), SkipBack(s, |s|);
    SkipFromSkipsSpace(s, 0);
    SkipBackSkipsSpace(s, |s|);
    if a < b {
      var r := s[a..b];
      assert r[0] == s[a] && r[|r| - 1] == s[b - 1];
      assert !AllSpace(s) by {
        assert !IsSpace(s[a]);
      }
    }
  }

  /** The longest prefix of `s` that holds no whitespace. */
  function Word(s: string): (w: string)
    ensures |w| <= |s|
    ensures s != [] && !IsSpace(s[0]) ==> w != []
  {
    if s == [] || IsSpace(s[0]) then [] else [s[0]] + Word(s[1..])
  }

  lemma {:induction false} WordIsRun(s: string)
    ensures Word(s) == s[..|Word(s)|] && NoSpace(Word(s))
    ensures |Word(s)| < |s| ==> IsSpace(s[|Word(s)|])
  {
    if s != [] && !IsSpace(s[0]) {
      WordIsRun(s[1..]);
    }
  }

  /** `strings.Fields`: the maximal runs of non-whitespace characters of `s`, in order. */
  function Fields(s: string): seq<string>
    decreases |s|
  {
    if s == [] then []
    else if IsSpace(s[0]) then Fields(s[1..])
    else
      var w := Word(s);
      [w] + Fields(s[|w|..])
  }

  /** Every field is a non-empty run of non-whitespace characters, and there is a
      field unless `s` is all whitespace. */
  lemma {:induction false} FieldsAreWords(s: string)
    ensures forall i :: 0 <= i < |Fields(s)| ==> Fields(s)[i] != [] && NoSpace(Fields(s)[i])
    ensures Fields(s) == [] <==> AllSpace(s)
    decreases |s|
  {
    if s == [] {
    } else if IsSpace(s[0]) {
      FieldsAreWords(s[1..]);
      assert AllSpace(s[1..]) ==> AllSpace(s);
    } else {
      var w := Word(s);
      WordIsRun(s);
      assert w != [];
      FieldsAreWords(s[|w|..]);
      assert Fields(s) == [w] + Fields(s[|w|..]);
    }
  }

  /** A word ends at the first whitespace character. */
  lemma {:induction false} WordStopsAtSpace(a: string, c: char, b: string)
    requires IsSpace(c)
    ensures Word(a + [c] + b) == Word(a) && |Word(a)| <= |a|
  {
    if a == [] {
      assert (a + [c] + b)[0] == c;
    } else {
      assert (a + [c] + b)[0] == a[0] && (a + [c] + b)[1..] == a[1..] + [c] + b;
      if !IsSpace(a[0]) {
        WordStopsAtSpace(a[1..], c, b);
      }
    }
  }

  /** A non-empty run with no whitespace is a single field. */
  lemma {:induction false} FieldsOfWord(w: string)
    requires w != [] && NoSpace(w)
    ensures Fields(w) == [w]
  {
    WordIsRun(w);
    assert Word(w) == w;
    assert w[|w|..] == [];
  }

  /** Whitespace separates fields: the fields on either side of a whitespace
      character are the fields of the two sides, none of them joined across it. */
  lemma {:induction false} FieldsSplit(a: string, c: char, b: string)
    requires IsSpace(c)
    ensures Fields(a + [c] + b) == Fields(a) + Fields(b)
    decreases |a|
  {
    var s := a + [c] + b;
    if a == [] {
      assert s[0] == c && s[1..] == b;
    } else if IsSpace(a[0]) {
      assert s[0] == a[0] && s[1..] == a[1..] + [c] + b;
      FieldsSplit(a[1..], c, b);
    } else {
      assert s[0] == a[0];
      var w := Word(a);
      WordStopsAtSpace(a, c, b);
      assert Word(s) == w;
      assert w != [];
      assert s[|w|..] == a[|w|..] + [c] + b;
      FieldsSplit(a[|w|..], c, b);
      assert Fields(a) == [w] + Fields(a[|w|..]);
    }
  }

  /** The first field of a line that is not all whitespace is the word that starts
      at its first non-space character. */
  lemma {:induction false} FieldsFirst(s: string, i: nat)
    requires i <= |s| && !AllSpace(s[i..])
    ensures Fields(s[i..]) != [] && Fields(s[i..])[0] == Word(s[SkipFrom(s, i)..])
    decreases |s| - i
  {
    assert s[i..] != [];
    assert s[i..][0] == s[i];
    if IsSpace(s[i]) {
      assert s[i..][1..] == s[i + 1..];
      assert !AllSpace(s[i + 1..]) by {
        var m :| 0 <= m < |s[i..]| && !IsSpace(s[i..][m]);
        assert m > 0 && s[i + 1..][m - 1] == s[i..][m];
      }
      FieldsFirst(s, i + 1);
    }
  }

  /** The words of `ws` written one after another. */
  function Concat(ws: seq<string>): string {
    if ws == [] then [] else ws[0] + Concat(ws[1..])
  }

  /** The characters of `s` that are not whitespace, in order. */
  function Squeeze(s: string): string {
    if s == [] then [] else (if IsSpace(s[0]) then [] else [s[0]]) + Squeeze(s[1..])
  }

  lemma {:induction false} SqueezeAppend(a: string, b: string)
    ensures Squeeze(a + b) == Squeeze(a) + Squeeze(b)
  {
    if a != [] {
      assert (a + b)[0] == a[0] && (a + b)[1..] == a[1..] + b;
      SqueezeAppend(a[1..], b);
    } else {
      assert a + b == b;
    }
  }

  lemma {:induction false} SqueezeNoSpace(w: string)
    requires NoSpace(w)
    ensures Squeeze(w) == w
  {
    if w != [] {
      SqueezeNoSpace(w[1..]);
    }
  }

  /** `strings.Fields` drops exactly the whitespace: its fields, joined, are the
      non-whitespace characters of the input in their original order. */
  lemma {:induction false} FieldsKeepNonSpace(s: string)
    ensures Concat(Fields(s)) == Squeeze(s)
    decreases |s|
  {
    if s == [] {
    } else if IsSpace(s[0]) {
      FieldsKeepNonSpace(s[1..]);
    } else {
      var w := Word(s);
      WordIsRun(s);
      var rest := s[|w|..];
      FieldsKeepNonSpace(rest);
      assert s == w + rest;
      SqueezeAppend(w, rest);
      SqueezeNoSpace(w);
      assert Fields(s) == [w] + Fields(rest);
      assert ([w] + Fields(rest))[1..] == Fields(rest);
    }
  }
}
