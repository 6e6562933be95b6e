/**
 * The agent's text utilities: stop-word keyword extraction (used as the vault
 * query and as the query of a search action) and extraction of the first
 * fenced code block from a model response.
 */
module AgentUtils {
  import opened Wrappers
  import opened Text

  const ChineseStopWords: seq<string> := [
    "的", "了", "在", "是", "我", "有", "和", "就", "不", "人", "都", "一", "一个",
    "上", "也", "很", "到", "说", "要", "去", "你", "会", "着", "没有", "看", "好",
    "自己", "这"
  ]

  const EnglishStopWords: seq<string> := [
    "the", "a", "an", "is", "are", "was", "were", "be", "been", "being",
    "have", "has", "had", "do", "does", "did", "will", "would", "should", "could"
  ]

  /** The stop-word list of `extract_keywords`, in its order. */
  const StopWords: seq<string> := ChineseStopWords + EnglishStopWords

  /** The filter of `extract_keywords`: not a stop word once lower-cased, and longer than one UTF-8 byte. */
  predicate IsKeyword(w: string) {
    Lower(w) !in StopWords && Utf8Len(w) > 1
  }

  /** `.filter(IsKeyword)`, keeping order and case. */
  function KeywordFilter(ws: seq<string>): (r: seq<string>)
    ensures forall w :: w in r ==> w in ws && IsKeyword(w)
    ensures |r| <= |ws|
  {
    if ws == [] then []
    else (if IsKeyword(ws[0]) then [ws[0]] else []) + KeywordFilter(ws[1..])
  }

  /** `.take(n)`. */
  function Take<T>(ws: seq<T>, n: nat): (r: seq<T>)
    ensures |r| == if |ws| <= n then |ws| else n
    ensures r == ws[..|r|]
  {
    if |ws| <= n then ws else ws[..n]
  }

  /** The tokens `extract_keywords` keeps: the first five keyword tokens of `text`. */
  function KeywordTokens(text: string): seq<string> {
    Take(KeywordFilter(Words(text)), 5)
  }

  /** `extract_keywords(text)`: the kept tokens joined by single spaces. */
  function ExtractKeywords(text: string): string {
    Join(" ", KeywordTokens(text))
  }

  /** `extract_search_query(instruction)` is plain keyword extraction. */
  function ExtractSearchQuery(instruction: string): (r: string)
    ensures r == ExtractKeywords(instruction)
  {
    ExtractKeywords(instruction)
  }

  lemma KeywordTokensAreWords(text: string)
    ensures forall w :: w in KeywordTokens(text) ==> IsWord(w) && IsKeyword(w) && w in Words(text)
  {
    WordsAreWords(text);
    var f := KeywordFilter(Words(text));
    forall w | w in KeywordTokens(text) ensures w in f {
      var k :| 0 <= k < |KeywordTokens(text)| && KeywordTokens(text)[k] == w;
      assert f[k] == w;
    }
  }

  /**
   * Splitting the extracted keywords again gives back exactly the kept tokens:
   * at most five, each a keyword token of `text`, in their original order and case.
   */
  lemma {:induction false} ExtractKeywordsTokens(text: string)
    ensures Words(ExtractKeywords(text)) == KeywordTokens(text)
    ensures |Words(ExtractKeywords(text))| <= 5
    ensures forall w :: w in Words(ExtractKeywords(text)) ==> IsKeyword(w) && w in Words(text)
  {
    KeywordTokensAreWords(text);
    WordsJoinSpace(KeywordTokens(text));
  }

  /** Keywords are empty exactly when no token of `text` survives the filter; so blank input gives "". */
  lemma {:induction false} ExtractKeywordsEmpty(text: string)
    ensures ExtractKeywords(text) == [] <==> KeywordFilter(Words(text)) == []
    ensures AllWhitespace(text) ==> ExtractKeywords(text) == []
  {
    KeywordTokensAreWords(text);
    JoinEmptyIff(" ", KeywordTokens(text));
    WordsEmptyIff(text);
  }

  lemma {:induction false} LowerNonAscii(s: string)
    requires forall i :: 0 <= i < |s| ==> s[i] >= '\U{80}'
    ensures Lower(s) == s
  {
    if s != [] {
      LowerNonAscii(s[1..]);
    }
  }

  /** A one-byte token (a single ASCII character) is never a keyword. */
  lemma SingleAsciiDropped(c: char)
    requires c < '\U{80}'
    ensures !IsKeyword([c])
  {
    assert [c][1..] == [];
  }

  /** A single non-ASCII character that is not a stop word is a keyword (it is at least two bytes). */
  lemma SingleNonAsciiKept(c: char)
    requires c >= '\U{80}' && [c] !in StopWords
    ensures IsKeyword([c])
  {
    LowerNonAscii([c]);
    assert [c][1..] == [];
  }

  lemma LowerThe()
    ensures Lower("The") == "the"
  {
    assert "The"[1..] == "he" && "he"[1..] == "e" && "e"[1..] == [];
  }

  lemma LowerIs()
    ensures Lower("IS") == "is"
  {
    assert "IS"[1..] == "S" && "S"[1..] == [];
  }

  lemma LowerShould()
    ensures Lower("Should") == "should"
  {
    assert Lower("d") == "d" by { assert "d"[1..] == []; }
    assert Lower("ld") == "ld" by { assert "ld"[1..] == "d"; }
    assert Lower("uld") == "uld" by { assert "uld"[1..] == "ld"; }
    assert Lower("ould") == "ould" by { assert "ould"[1..] == "uld"; }
    assert Lower("hould") == "hould" by { assert "hould"[1..] == "ould"; }
    assert "Should"[1..] == "hould";
  }

  /** A token whose lower-cased form is a stop word is dropped. */
  lemma StopWordDropped(w: string, k: nat)
    requires k < |StopWords| && Lower(w) == StopWords[k]
    ensures !IsKeyword(w)
  {
  }

  /** The English stop words follow the Chinese ones. */
  lemma EnglishStopWord(i: nat)
    requires i < |EnglishStopWords|
    ensures 28 + i < |StopWords| && StopWords[28 + i] == EnglishStopWords[i]
  {
    assert |ChineseStopWords| == 28;
  }

  /** Example: stop words match case-insensitively, as `IsKeyword` states in general. */
  lemma StopWordsIgnoreCase()
    ensures !IsKeyword("The") && !IsKeyword("IS") && !IsKeyword("Should")
  {
    LowerThe();
    EnglishStopWord(0);
    StopWordDropped("The", 28);
    LowerIs();
    EnglishStopWord(3);
    StopWordDropped("IS", 31);
    LowerShould();
    EnglishStopWord(18);
    StopWordDropped("Should", 46);
  }

  // ---------------------------------------------------------------------------
  // extract_code_block

  const Fence := "```"

  /** `code.lines().skip(1)`. */
  function SkipFirst(ls: seq<string>): seq<string> {
    if ls == [] then [] else ls[1..]
  }

  /** The text strictly between the first fence and the next one after it. */
  function FencedBody(text: string): (r: Option<string>)
  {
    match Find(text, Fence)
    case None => None
    case Some(start) =>
      var rest := text[start + 3..];
      match Find(rest, Fence)
      case None => None
      case Some(end) => Some(rest[..end])
  }

  /**
   * `extract_code_block(text)`: the text between the first two fences, its first
   * line (the language tag) dropped, trimmed.
   */
  function ExtractCodeBlock(text: string): (r: Option<string>)
    ensures r.Some? <==> FencedBody(text).Some?
    ensures r.Some? ==> IsTrimmed(r.value)
  {
    match FencedBody(text)
    case None => None
    case Some(body) => Some(Trim(Join("\n", SkipFirst(Lines(body)))))
  }

  /** There is a code block exactly when the text holds two fences that do not overlap. */
  lemma CodeBlockPresence(text: string)
    ensures ExtractCodeBlock(text).Some? <==>
      exists i: nat, j: nat :: OccursAt(text, Fence, i) && OccursAt(text, Fence, j) && i + 3 <= j
  {
    if FencedBody(text).Some? {
      var start := Find(text, Fence).value;
      var end := Find(text[start + 3..], Fence).value;
      FenceBack(text, start, end);
      var j := start + 3 + end;
      assert OccursAt(text, Fence, start) && OccursAt(text, Fence, j) && start + 3 <= j;
    }
    if exists i: nat, j: nat :: OccursAt(text, Fence, i) && OccursAt(text, Fence, j) && i + 3 <= j {
      var i: nat, j: nat :| OccursAt(text, Fence, i) && OccursAt(text, Fence, j) && i + 3 <= j;
      SecondFence(text, i, j);
    }
  }

  /** Two non-overlapping fences make a fenced body. */
  lemma SecondFence(text: string, i: nat, j: nat)
    requires OccursAt(text, Fence, i) && OccursAt(text, Fence, j) && i + 3 <= j
    ensures FencedBody(text).Some?
  {
    var start := Find(text, Fence).value;
    FenceShift(text, start, j);
  }

  lemma FenceBack(text: string, start: nat, end: nat)
    requires Find(text, Fence) == Some(start) && start + 3 <= |text| && Find(text[start + 3..], Fence) == Some(end)
    ensures OccursAt(text, Fence, start) && OccursAt(text, Fence, start + 3 + end)
  {
    assert text[start + 3 + end..start + 6 + end] == text[start + 3..][end..end + 3];
  }

  lemma FenceShift(text: string, start: nat, j: nat)
    requires Find(text, Fence) == Some(start) && start + 3 <= j && OccursAt(text, Fence, j)
    ensures OccursAt(text[start + 3..], Fence, j - start - 3)
  {
    assert text[start + 3..][j - start - 3..j - start] == text[j..j + 3];
  }

  /** A slice of a text without `p` does not contain `p`. */
  lemma SliceFree(s: string, p: string, i: nat, k: nat)
    requires i <= k <= |s| && !Contains(s, p)
    ensures !Contains(s[i..k], p)
  {
    var t := s[i..k];
    if Contains(t, p) {
      var j := Find(t, p).value;
      assert OccursAt(t, p, j);
      SliceOfSlice(s, i, k, j, j + |p|);
      assert OccursAt(s, p, i + j);
      assert false;
    }
  }

  lemma SliceOfSlice<T>(s: seq<T>, i: nat, k: nat, a: nat, b: nat)
    requires i <= k <= |s| && a <= b <= k - i
    ensures s[i..k][a..b] == s[i + a..i + b]
  {
    var t := s[i..k];
    forall x | 0 <= x < b - a
      ensures t[a..b][x] == s[i + a..i + b][x]
    {
      assert t[a..b][x] == t[a + x] == s[i + a + x];
    }
  }

  lemma {:induction false} LinesFree(s: string, p: string)
    requires !Contains(s, p)
    ensures forall l :: l in Lines(s) ==> !Contains(l, p)
    decreases |s|
  {
    if s != [] {
      match Find(s, "\n")
      case None =>
      case Some(k) =>
        SliceFree(s, p, 0, k);
        var line := s[..k];
        if line != [] && line[|line| - 1] == '\r' {
          SliceFree(line, p, 0, |line| - 1);
        }
        assert !Contains(StripCR(line), p);
        SliceFree(s, p, k + 1, |s|);
        assert s[k + 1..|s|] == s[k + 1..];
        LinesFree(s[k + 1..], p);
        assert Lines(s) == [StripCR(line)] + Lines(s[k + 1..]);
    }
  }

  /** Joining pieces free of `p` with a character `p` does not use cannot create `p`. */
  lemma {:induction false} JoinFree(c: char, ls: seq<string>, p: string)
    requires p != [] && c !in p
    requires forall l :: l in ls ==> !Contains(l, p)
    ensures !Contains(Join([c], ls), p)
  {
    if |ls| > 1 {
      assert ls[0] in ls;
      JoinFree(c, ls[1..], p);
      var a, b := ls[0], Join([c], ls[1..]);
      var s := a + [c] + b;
      assert Join([c], ls) == s;
      forall j: nat | j <= |s| ensures !OccursAt(s, p, j) {
        SeamFree(a, c, b, p, j);
      }
    } else if |ls| == 1 {
      assert ls[0] in ls;
    }
  }

  lemma SeamFree(a: string, c: char, b: string, p: string, j: nat)
    requires p != [] && c !in p && !Contains(a, p) && !Contains(b, p)
    ensures !OccursAt(a + [c] + b, p, j)
  {
    var s := a + [c] + b;
    if j + |p| <= |s| {
      if j + |p| <= |a| {
        assert s[j..j + |p|] == a[j..j + |p|];
        assert !OccursAt(a, p, j);
      } else if j > |a| {
        assert s[j..j + |p|] == b[j - |a| - 1..j - |a| - 1 + |p|];
        assert !OccursAt(b, p, j - |a| - 1);
      } else {
        assert s[j..j + |p|][|a| - j] == c;
      }
    }
  }

  /** The part of `s` before the first occurrence of `p` does not contain `p`. */
  lemma BeforeFirstFree(s: string, p: string, e: nat)
    requires p != [] && Find(s, p) == Some(e)
    ensures !Contains(s[..e], p)
  {
    var t := s[..e];
    forall j: nat | j <= |t| ensures !OccursAt(t, p, j) {
      if OccursAt(t, p, j) {
        assert t[j..j + |p|] == s[j..j + |p|];
        assert OccursAt(s, p, j);
      }
    }
  }

  /** The body between the fences holds no fence. */
  lemma FencedBodyFree(text: string)
    requires FencedBody(text).Some?
    ensures !Contains(FencedBody(text).value, Fence)
  {
    var start := Find(text, Fence).value;
    var rest := text[start + 3..];
    var end := Find(rest, Fence).value;
    BeforeFirstFree(rest, Fence, end);
  }

  /** Joining fence-free lines with `\n` and trimming gives a fence-free text. */
  lemma JoinTrimFree(ls: seq<string>)
    requires forall l :: l in ls ==> !Contains(l, Fence)
    ensures !Contains(Trim(Join("\n", ls)), Fence)
  {
    JoinFree('\n', ls, Fence);
    var joined := Join("\n", ls);
    assert joined == Join(['\n'], ls);
    var i := TrimSlice(joined);
    SliceFree(joined, Fence, i, i + |Trim(joined)|);
  }

  /** Dropping the tag line, joining and trimming keeps a fence-free body fence-free. */
  lemma CodeLinesFree(body: string)
    requires !Contains(body, Fence)
    ensures !Contains(Trim(Join("\n", SkipFirst(Lines(body)))), Fence)
  {
    LinesFree(body, Fence);
    var ls := SkipFirst(Lines(body));
    assert forall l :: l in ls ==> l in Lines(body);
    JoinTrimFree(ls);
  }

  /** The code block never contains a fence and has no surrounding whitespace. */
  lemma CodeBlockClean(text: string)
    requires ExtractCodeBlock(text).Some?
    ensures !Contains(ExtractCodeBlock(text).value, Fence)
    ensures IsTrimmed(ExtractCodeBlock(text).value)
  {
    FencedBodyFree(text);
    CodeLinesFree(FencedBody(text).value);
  }

  lemma NoCR(s: string)
    requires '\r' !in s
    ensures StripCR(s) == s
  {
    if s != [] {
      assert s[|s| - 1] in s;
    }
  }

  /** A text with no line break is one line of `s + "\n"`. */
  lemma LastLine(s: string)
    requires '\r' !in s && Find(s, "\n").None?
    ensures Lines(s + "\n") == [s]
  {
    var t := s + "\n";
    forall j | 0 <= j < |s| ensures !OccursAt(t, "\n", j) {
      assert !OccursAt(s, "\n", j);
      assert t[j..j + 1] == s[j..j + 1];
    }
    assert OccursAt(t, "\n", |s|);
    assert Find(t, "\n") == Some(|s|);
    assert t[..|s|] == s && t[|s| + 1..] == [];
    NoCR(s);
  }

  /** A slice of a text without `\r` has none either. */
  lemma NoCRSlice(s: string, i: nat, j: nat)
    requires '\r' !in s && i <= j <= |s|
    ensures '\r' !in s[i..j]
  {
    assert forall x :: x in s[i..j] ==> x in s;
  }

  /** Both sides of the first line break of a text without `\r` have none. */
  lemma FirstLineNoCR(s: string, k: nat)
    requires '\r' !in s && Find(s, "\n") == Some(k)
    ensures '\r' !in s[..k] && '\r' !in s[k + 1..]
  {
    NoCRSlice(s, 0, k);
    assert s[0..k] == s[..k];
    NoCRSlice(s, k + 1, |s|);
    assert s[k + 1..|s|] == s[k + 1..];
  }

  /** The first line of `s + "\n"` ends at the first line break of `s`. */
  lemma FirstLine(s: string, k: nat)
    requires Find(s, "\n") == Some(k) && '\r' !in s[..k]
    ensures Lines(s + "\n") == [s[..k]] + Lines(s[k + 1..] + "\n")
  {
    var t := s + "\n";
    FindExtend(s, "\n", "\n");
    NoCR(s[..k]);
    assert t[..k] == s[..k];
    assert t[k + 1..] == s[k + 1..] + "\n";
  }

  /** A text is its part before the first line break, the break, and the rest. */
  lemma FirstBreak(s: string, k: nat)
    requires Find(s, "\n") == Some(k)
    ensures s == s[..k] + "\n" + s[k + 1..]
  {
    assert s[k..k + 1] == "\n";
    assert s == s[..k] + s[k..k + 1] + s[k + 1..];
  }

  /** With no `\r`, the lines of `s + "\n"` joined by `\n` give back `s`. */
  lemma {:induction false} JoinLines(s: string)
    requires '\r' !in s
    ensures Join("\n", Lines(s + "\n")) == s
    decreases |s|
  {
    match Find(s, "\n")
    case None =>
      LastLine(s);
    case Some(k) =>
      var rest := s[k + 1..];
      FirstLineNoCR(s, k);
      FirstLine(s, k);
      FirstBreak(s, k);
      JoinLines(rest);
      assert Lines(rest + "\n") != [];
  }

  /** The first fence of a text whose prefix has no backquote is right after that prefix. */
  lemma FirstFence(intro: string, rest: string)
    requires '`' !in intro
    ensures Find(intro + Fence + rest, Fence) == Some(|intro|)
  {
    var text := intro + Fence + rest;
    assert OccursAt(text, Fence, |intro|);
    forall j | 0 <= j < |intro| ensures !OccursAt(text, Fence, j) {
      assert text[j] == intro[j];
    }
  }

  /** The fenced body of such a text is everything between the two fences. */
  lemma FencedBodyOf(intro: string, body: string, tail: string)
    requires '`' !in intro && '`' !in body
    ensures FencedBody(intro + Fence + body + Fence + tail) == Some(body)
  {
    var text := intro + Fence + body + Fence + tail;
    assert text == intro + Fence + (body + Fence + tail);
    FirstFence(intro, body + Fence + tail);
    var rest := text[|intro| + 3..];
    assert rest == body + Fence + tail;
    FirstFence(body, tail);
    assert rest[..|body|] == body;
  }

  /** The lines after a tag line are the lines of the rest. */
  lemma LinesAfterTag(tag: string, rest: string)
    requires '\n' !in tag
    ensures SkipFirst(Lines(tag + "\n" + rest)) == Lines(rest)
  {
    var body := tag + "\n" + rest;
    assert OccursAt(body, "\n", |tag|);
    var k := Find(body, "\n").value;
    forall j | 0 <= j < |tag| ensures !OccursAt(body, "\n", j) {
      assert body[j] == tag[j];
    }
    assert body[k + 1..] == rest;
  }

  /**
   * A fenced block written as intro, fence, tag line, code, fence is read back
   * as exactly `code`, whatever follows the closing fence.
   */
  lemma CodeBlockRoundTrip(intro: string, tag: string, code: string, tail: string)
    requires '`' !in intro && '`' !in tag && '\n' !in tag
    requires '`' !in code && '\r' !in code && IsTrimmed(code)
    ensures ExtractCodeBlock(intro + Fence + tag + "\n" + code + "\n" + Fence + tail) == Some(code)
  {
    var body := tag + "\n" + code + "\n";
    assert '`' !in body;
    assert intro + Fence + tag + "\n" + code + "\n" + Fence + tail == intro + Fence + body + Fence + tail;
    FencedBodyOf(intro, body, tail);
    assert body == tag + "\n" + (code + "\n");
    LinesAfterTag(tag, code + "\n");
    JoinLines(code);
    TrimTrimmed(code);
  }

  lemma TrimTrimmed(s: string)
    requires IsTrimmed(s)
    ensures Trim(s) == s
  {
  }
}
