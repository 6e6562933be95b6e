/**
 * The parts of Rust's `str` API that the agent code relies on, over strings of
 * Unicode scalar values: `split_whitespace`, `join`, `trim`, `find`,
 * `contains`, `split`, `lines`, `to_lowercase` (ASCII letters only) and the
 * UTF-8 byte length that `len()` and byte slicing count.
 */
module Text {
  import opened Wrappers

  /** Unicode White_Space, the set `char::is_whitespace` accepts. */
  predicate IsWhitespace(c: char) {
    c == ' ' || ('\t' <= c <= '\r') || c == '\U{85}' || c == '\U{A0}' || c == '\U{1680}'
    || ('\U{2000}' <= c <= '\U{200A}') || c == '\U{2028}' || c == '\U{2029}'
    || c == '\U{202F}' || c == '\U{205F}' || c == '\U{3000}'
  }

  predicate AllWhitespace(s: string) {
    forall i :: 0 <= i < |s| ==> IsWhitespace(s[i])
  }

  /** A token as `split_whitespace` yields it: non-empty, no whitespace inside. */
  predicate IsWord(w: string) {
    w != [] && forall i :: 0 <= i < |w| ==> !IsWhitespace(w[i])
  }

  /** No leading and no trailing whitespace. */
  predicate IsTrimmed(s: string) {
    s == [] || (!IsWhitespace(s[0]) && !IsWhitespace(s[|s| - 1]))
  }

  // ---------------------------------------------------------------------------
  // UTF-8 lengths and byte slicing

  /** Number of bytes UTF-8 uses for `c`. */
  function Utf8Width(c: char): (w: nat)
    ensures 1 <= w <= 4
    ensures w == 1 <==> c < '\U{80}'
  {
    if c < '\U{80}' then 1 else if c < '\U{800}' then 2 else if c < '\U{10000}' then 3 else 4
  }

  /** `s.len()` in Rust: the UTF-8 byte length. */
  function Utf8Len(s: string): (n: nat)
    ensures |s| <= n <= 4 * |s|
  {
    if s == [] then 0 else Utf8Width(s[0]) + Utf8Len(s[1..])
  }

  lemma {:induction false} Utf8LenAppend(a: string, b: string)
    ensures Utf8Len(a + b) == Utf8Len(a) + Utf8Len(b)
  {
    if a == [] {
      assert a + b == b;
    } else {
      assert (a + b)[0] == a[0];
      assert (a + b)[1..] == a[1..] + b;
      Utf8LenAppend(a[1..], b);
    }
  }

  /**
   * The char prefix of `s` that is exactly `n` bytes long: `Some` iff byte
   * offset `n` is a char boundary of `s` (the condition under which Rust's
   * `&s[..n]` does not panic).
   */
  function BytePrefix(s: string, n: nat): (r: Option<string>)
    ensures r.Some? ==> |r.value| <= |s| && r.value == s[..|r.value|] && Utf8Len(r.value) == n
    ensures r.None? <==> forall k :: 0 <= k <= |s| ==> Utf8Len(s[..k]) != n
  {
    if n == 0 then
      assert Utf8Len(s[..0]) == 0;
      Some([])
    else if s == [] then
      assert forall k :: 0 <= k <= |s| ==> s[..k] == [];
      None
    else if Utf8Width(s[0]) > n then
      assert forall k :: 1 <= k <= |s| ==> s[..k][0] == s[0];
      None
    else
      var rest := BytePrefix(s[1..], n - Utf8Width(s[0]));
      assert forall k :: 1 <= k <= |s| ==> s[..k][1..] == s[1..][..k - 1];
      match rest
      case Some(p) =>
        assert ([s[0]] + p)[1..] == p;
        Some([s[0]] + p)
      case None => None
  }

  // ---------------------------------------------------------------------------
  // Lower-casing (ASCII letters)

  function LowerChar(c: char): char {
    if 'A' <= c <= 'Z' then (c as int + 32) as char else c
  }

  /** `to_lowercase`, restricted to the ASCII letters. */
  function Lower(s: string): (r: string)
    ensures |r| == |s|
  {
    if s == [] then [] else [LowerChar(s[0])] + Lower(s[1..])
  }

  /** Lower-casing works character by character, so it distributes over concatenation. */
  lemma {:induction false} LowerAppend(a: string, b: string)
    ensures Lower(a + b) == Lower(a) + Lower(b)
  {
    if a == [] {
      assert a + b == b;
    } else {
      assert (a + b)[1..] == a[1..] + b;
      LowerAppend(a[1..], b);
    }
  }

  /** Each character of the lower-cased text is the lower-cased character. */
  lemma {:induction false} LowerIndex(s: string, i: nat)
    requires i < |s|
    ensures Lower(s)[i] == LowerChar(s[i])
  {
    if i > 0 {
      LowerIndex(s[1..], i - 1);
    }
  }

  // ---------------------------------------------------------------------------
  // split_whitespace

  /** Length of the longest whitespace-free prefix of `s`. */
  function WordLen(s: string): (k: nat)
    ensures k <= |s|
    ensures forall i :: 0 <= i < k ==> !IsWhitespace(s[i])
    ensures k < |s| ==> IsWhitespace(s[k])
  {
    if s == [] || IsWhitespace(s[0]) then 0 else 1 + WordLen(s[1..])
  }

  lemma {:induction false} WordLenUnique(s: string, k: nat)
    requires k <= |s|
    requires forall i :: 0 <= i < k ==> !IsWhitespace(s[i])
    requires k < |s| ==> IsWhitespace(s[k])
    ensures WordLen(s) == k
  {
    if k > 0 {
      WordLenUnique(s[1..], k - 1);
    }
  }

  /** `s.split_whitespace()`: the maximal whitespace-free runs of `s`, in order. */
  function Words(s: string): (ws: seq<string>)
    decreases |s|
  {
    if s == [] then []
    else if IsWhitespace(s[0]) then Words(s[1..])
    else
      var k := WordLen(s);
      [s[..k]] + Words(s[k..])
  }

  lemma {:induction false} WordsAreWords(s: string)
    ensures forall w :: w in Words(s) ==> IsWord(w)
    decreases |s|
  {
    if s == [] {
    } else if IsWhitespace(s[0]) {
      WordsAreWords(s[1..]);
    } else {
      WordsAreWords(s[WordLen(s)..]);
    }
  }

  /** A whitespace character separates: the words of `a + c + b` are those of `a`, then those of `b`. */
  lemma {:induction false} WordsSplit(a: string, c: char, b: string)
    requires IsWhitespace(c)
    ensures Words(a + [c] + b) == Words(a) + Words(b)
    decreases |a|
  {
    var s := a + [c] + b;
    if a == [] {
      assert s[0] == c && s[1..] == b;
    } else if IsWhitespace(a[0]) {
      assert s[0] == a[0] && s[1..] == a[1..] + [c] + b;
      WordsSplit(a[1..], c, b);
    } else {
      var k := WordLen(a);
      assert s[0] == a[0];
      assert forall i :: 0 <= i < k ==> s[i] == a[i];
      assert k < |s| && IsWhitespace(s[k]) by {
        if k < |a| { assert s[k] == a[k]; } else { assert s[k] == c; }
      }
      WordLenUnique(s, k);
      assert s[..k] == a[..k];
      assert s[k..] == a[k..] + [c] + b;
      WordsSplit(a[k..], c, b);
    }
  }

  lemma WordsSeparator(a: string, sep: string, b: string)
    requires sep != [] && AllWhitespace(sep)
    ensures Words(a + sep + b) == Words(a) + Words(b)
    decreases |sep|
  {
    if |sep| == 1 {
      assert sep == [sep[0]];
      WordsSplit(a, sep[0], b);
    } else {
      assert a + sep + b == (a + [sep[0]]) + sep[1..] + b;
      WordsSeparator(a + [sep[0]], sep[1..], b);
      WordsSplit(a, sep[0], []);
      assert a + [sep[0]] + [] == a + [sep[0]];
      assert Words([]) == [];
    }
  }

  lemma {:induction false} WordsOfWord(w: string)
    requires IsWord(w)
    ensures Words(w) == [w]
  {
    WordLenUnique(w, |w|);
    assert w[|w|..] == [];
    assert w[..|w|] == w;
  }

  lemma {:induction false} WordsEmptyIff(s: string)
    ensures Words(s) == [] <==> AllWhitespace(s)
    decreases |s|
  {
    if s != [] {
      if IsWhitespace(s[0]) {
        WordsEmptyIff(s[1..]);
        assert AllWhitespace(s) <==> AllWhitespace(s[1..]) by {
          if AllWhitespace(s[1..]) {
            forall i | 0 <= i < |s| ensures IsWhitespace(s[i]) {
              if i > 0 { assert s[i] == s[1..][i - 1]; }
            }
          }
        }
      }
    }
  }

  // ---------------------------------------------------------------------------
  // join

  /** `ws.join(sep)`. */
  function Join(sep: string, ws: seq<string>): string {
    if ws == [] then [] else if |ws| == 1 then ws[0] else ws[0] + sep + Join(sep, ws[1..])
  }

  lemma JoinAppend(sep: string, ws: seq<string>, w: string)
    ensures Join(sep, ws + [w]) == if ws == [] then w else Join(sep, ws) + sep + w
  {
    if |ws| > 1 {
      assert (ws + [w])[1..] == ws[1..] + [w];
      JoinAppend(sep, ws[1..], w);
    } else if |ws| == 1 {
      assert (ws + [w])[1..] == [w];
    }
  }

  /** A join of non-empty pieces is empty only when there are no pieces. */
  lemma {:induction false} JoinEmptyIff(sep: string, ws: seq<string>)
    requires forall w :: w in ws ==> w != []
    ensures Join(sep, ws) == [] <==> ws == []
  {
    if |ws| > 1 {
      assert ws[0] in ws;
      assert |Join(sep, ws)| >= |ws[0]|;
    } else if |ws| == 1 {
      assert ws[0] in ws;
    }
  }

  /** Joining tokens with single spaces and splitting again gives the tokens back. */
  lemma {:induction false} WordsJoinSpace(ws: seq<string>)
    requires forall w :: w in ws ==> IsWord(w)
    ensures Words(Join(" ", ws)) == ws
  {
    if ws == [] {
    } else if |ws| == 1 {
      WordsOfWord(ws[0]);
    } else {
      WordsJoinSpace(ws[1..]);
      WordsSplit(ws[0], ' ', Join(" ", ws[1..]));
      assert ws[0] + " " + Join(" ", ws[1..]) == ws[0] + [' '] + Join(" ", ws[1..]);
      WordsOfWord(ws[0]);
    }
  }

  // ---------------------------------------------------------------------------
  // trim

  function TrimStart(s: string): (r: string)
    ensures |r| <= |s| && r == s[|s| - |r|..]
    ensures AllWhitespace(s[..|s| - |r|])
    ensures r != [] ==> !IsWhitespace(r[0])
  {
    if s != [] && IsWhitespace(s[0]) then
      var r := TrimStart(s[1..]);
      assert s[..|s| - |r|] == [s[0]] + s[1..][..|s[1..]| - |r|];
      r
    else s
  }

  function TrimEnd(s: string): (r: string)
    ensures |r| <= |s| && r == s[..|r|]
    ensures AllWhitespace(s[|r|..])
    ensures r != [] ==> !IsWhitespace(r[|r| - 1])
  {
    if s != [] && IsWhitespace(s[|s| - 1]) then
      var r := TrimEnd(s[..|s| - 1]);
      assert s[|r|..] == s[..|s| - 1][|r|..] + [s[|s| - 1]];
      r
    else s
  }

  /** `s.trim()`: `s` without its leading and trailing whitespace. */
  function Trim(s: string): (r: string)
    ensures IsTrimmed(r)
    ensures r == [] <==> AllWhitespace(s)
  {
    var t := TrimStart(s);
    var r := TrimEnd(t);
    TrimEmptyIff(s, t, r);
    r
  }

  /** `s.trim()` is a slice of `s`. */
  lemma TrimSlice(s: string) returns (i: nat)
    ensures i + |Trim(s)| <= |s| && Trim(s) == s[i..i + |Trim(s)|]
  {
    var t := TrimStart(s);
    i := |s| - |t|;
    assert Trim(s) == TrimEnd(t) == t[..|Trim(s)|];
  }

  /** Leading whitespace does not change the words. */
  lemma {:induction false} WordsLeadingSpace(pre: string, t: string)
    requires AllWhitespace(pre)
    ensures Words(pre + t) == Words(t)
    decreases |pre|
  {
    if pre == [] {
      assert pre + t == t;
    } else {
      var s := pre + t;
      assert s[0] == pre[0] && IsWhitespace(pre[0]) && s[1..] == pre[1..] + t;
      assert AllWhitespace(pre[1..]) by {
        forall i | 0 <= i < |pre| - 1 ensures IsWhitespace(pre[1..][i]) {
          assert pre[1..][i] == pre[i + 1];
        }
      }
      WordsLeadingSpace(pre[1..], t);
    }
  }

  /** Trailing whitespace does not change the words. */
  lemma WordsTrailingSpace(r: string, suf: string)
    requires AllWhitespace(suf)
    ensures Words(r + suf) == Words(r)
  {
    if suf == [] {
      assert r + suf == r;
    } else {
      assert r + suf == r + [suf[0]] + suf[1..];
      WordsSplit(r, suf[0], suf[1..]);
      assert AllWhitespace(suf[1..]) by {
        forall i | 0 <= i < |suf| - 1 ensures IsWhitespace(suf[1..][i]) {
          assert suf[1..][i] == suf[i + 1];
        }
      }
      WordsEmptyIff(suf[1..]);
      assert Words(r) + [] == Words(r);
    }
  }

  lemma WordsTrimStart(s: string)
    ensures Words(TrimStart(s)) == Words(s)
  {
    var t := TrimStart(s);
    var k := |s| - |t|;
    assert s == s[..k] + t;
    WordsLeadingSpace(s[..k], t);
  }

  lemma WordsTrimEnd(t: string)
    ensures Words(TrimEnd(t)) == Words(t)
  {
    var r := TrimEnd(t);
    assert t == r + t[|r|..];
    WordsTrailingSpace(r, t[|r|..]);
  }

  /** Trimming a text keeps its words: `s.trim().split_whitespace()` equals `s.split_whitespace()`. */
  lemma WordsTrim(s: string)
    ensures Words(Trim(s)) == Words(s)
  {
    WordsTrimStart(s);
    WordsTrimEnd(TrimStart(s));
    assert Trim(s) == TrimEnd(TrimStart(s));
  }

  lemma TrimEmptyIff(s: string, t: string, r: string)
    requires t == TrimStart(s) && r == TrimEnd(t)
    ensures r == [] <==> AllWhitespace(s)
    ensures r != [] ==> !IsWhitespace(r[0])
  {
    if r != [] {
      assert !IsWhitespace(t[0]) && r[0] == t[0];
      assert s[|s| - |t|] == t[0];
    } else {
      assert t == [];
      forall i | 0 <= i < |s| ensures IsWhitespace(s[i]) {
        assert s[i] == s[..|s| - |t|][i];
      }
    }
  }

  // ---------------------------------------------------------------------------
  // find / contains

  /** `p` occurs in `s` at offset `i`. */
  predicate OccursAt(s: string, p: string, i: nat) {
    i + |p| <= |s| && s[i..i + |p|] == p
  }

  function FindFrom(s: string, p: string, i: nat): (r: Option<nat>)
    requires i <= |s|
    ensures r.Some? ==> i <= r.value && OccursAt(s, p, r.value)
    ensures r.Some? ==> forall j :: i <= j < r.value ==> !OccursAt(s, p, j)
    ensures r.None? ==> forall j :: i <= j <= |s| ==> !OccursAt(s, p, j)
    decreases |s| - i
  {
    if i + |p| > |s| then None
    else if s[i..i + |p|] == p then Some(i)
    else FindFrom(s, p, i + 1)
  }

  /** `s.find(p)`: the offset of the first occurrence of `p` in `s`. */
  function Find(s: string, p: string): (r: Option<nat>)
    ensures r.Some? ==> OccursAt(s, p, r.value) && forall j :: 0 <= j < r.value ==> !OccursAt(s, p, j)
    ensures r.None? ==> forall j :: 0 <= j <= |s| ==> !OccursAt(s, p, j)
  {
    FindFrom(s, p, 0)
  }

  /** `s.contains(p)`. */
  predicate Contains(s: string, p: string) {
    Find(s, p).Some?
  }

  /** The first occurrence of `p` in `a` is also its first occurrence in `a + b`. */
  lemma FindExtend(a: string, b: string, p: string)
    requires Find(a, p).Some?
    ensures Find(a + b, p) == Find(a, p)
  {
    var i := Find(a, p).value;
    assert (a + b)[i..i + |p|] == a[i..i + |p|];
    forall j | 0 <= j < i ensures !OccursAt(a + b, p, j) {
      assert !OccursAt(a, p, j);
      assert (a + b)[j..j + |p|] == a[j..j + |p|];
    }
    assert OccursAt(a + b, p, i);
    var r := Find(a + b, p);
    assert r.Some? && r.value <= i;
    assert !(r.value < i);
  }

  /** The part of `s` before the first occurrence of `sep` (all of `s` if none). */
  function Before(s: string, sep: string): (r: string)
    ensures |r| <= |s| && r == s[..|r|]
  {
    match Find(s, sep)
    case None => s
    case Some(i) => s[..i]
  }

  /** `s.split(sep)` for a non-empty separator. */
  function SplitOn(s: string, sep: string): (r: seq<string>)
    requires sep != []
    ensures r != []
    decreases |s|
  {
    match Find(s, sep)
    case None => [s]
    case Some(i) => [s[..i]] + SplitOn(s[i + |sep|..], sep)
  }

  /** `split` and `join` with the same separator are inverse. */
  lemma {:induction false} JoinSplitOn(s: string, sep: string)
    requires sep != []
    ensures Join(sep, SplitOn(s, sep)) == s
    decreases |s|
  {
    match Find(s, sep)
    case None =>
    case Some(i) =>
      var rest := s[i + |sep|..];
      JoinSplitOn(rest, sep);
      assert SplitOn(s, sep)[1..] == SplitOn(rest, sep);
      assert s == s[..i] + sep + rest;
  }

  // ---------------------------------------------------------------------------
  // lines

  /** Drops the `\r` of a `\r\n` line ending. */
  function StripCR(line: string): string {
    if line != [] && line[|line| - 1] == '\r' then line[..|line| - 1] else line
  }

  /**
   * `s.lines()`: split after each `\n`, dropping the `\n` and a `\r` just before
   * it; a final line ending adds no empty line.
   */
  function Lines(s: string): seq<string>
    decreases |s|
  {
    if s == [] then []
    else match Find(s, "\n")
      case None => [s]
      case Some(k) => [StripCR(s[..k])] + Lines(s[k + 1..])
  }

  // ---------------------------------------------------------------------------
  // decimal numbers

  function DigitChar(d: nat): char
    requires d < 10
  {
    ('0' as int + d) as char
  }

  /** `n.to_string()`: the decimal digits of `n`, no sign, no leading zero. */
  function NatToString(n: nat): (s: string)
    ensures s != [] && forall i :: 0 <= i < |s| ==> '0' <= s[i] <= '9'
    ensures |s| > 1 ==> s[0] != '0'
  {
    if n < 10 then [DigitChar(n)] else NatToString(n / 10) + [DigitChar(n % 10)]
  }

  /** The value of a string of decimal digits. */
  function ParseDigits(s: string): nat
    requires forall i :: 0 <= i < |s| ==> '0' <= s[i] <= '9'
  {
    if s == [] then 0 else ParseDigits(s[..|s| - 1]) * 10 + (s[|s| - 1] as int - '0' as int)
  }

  /** Reading back the decimal rendering gives the number. */
  lemma {:induction false} NatToStringRoundTrip(n: nat)
    ensures ParseDigits(NatToString(n)) == n
  {
    if n >= 10 {
      NatToStringRoundTrip(n / 10);
      var s := NatToString(n);
      assert s[..|s| - 1] == NatToString(n / 10);
    } else {
      assert [DigitChar(n)][..0] == [];
    }
  }
}
