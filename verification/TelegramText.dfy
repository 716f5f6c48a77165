/** The text-size contract of app/telegram_contract.py: UTF-16 length and the greedy splitter. */
module TelegramText {
  import opened Wrappers

  datatype SplitError = NonPositiveLimit | CharacterTooWide

  /** UTF-16 code units of one Unicode scalar value (section 2.1 of RFC 2781). */
  function CodeUnits(c: char): (units: seq<nat>)
    ensures forall u | u in units :: u < 0x1_0000
    ensures |units| == if c as int < 0x1_0000 then 1 else 2
    ensures |units| == 1 ==> units[0] == c as int
    ensures |units| == 2 ==> 0xD800 <= units[0] < 0xDC00 <= units[1] < 0xE000
    ensures |units| == 2 ==> c as int == 0x1_0000 + 0x400 * (units[0] - 0xD800) + (units[1] - 0xDC00)
  {
    var u := c as int;
    if u < 0x1_0000 then [u]
    else [0xD800 + (u - 0x1_0000) / 0x400, 0xDC00 + (u - 0x1_0000) % 0x400]
  }

  /** The byte sequence Python's "utf-16-le" codec produces. */
  function EncodeUtf16Le(text: string): seq<nat> {
    if text == "" then [] else CodeUnitBytes(CodeUnits(text[0])) + EncodeUtf16Le(text[1..])
  }

  function CodeUnitBytes(units: seq<nat>): (bytes: seq<nat>)
    ensures |bytes| == 2 * |units|
  {
    if units == [] then [] else [units[0] % 0x100, units[0] / 0x100] + CodeUnitBytes(units[1..])
  }

  /** The number of UTF-16 code units of a text, character by character. */
  function TextUnits(text: string): nat {
    if text == "" then 0 else |CodeUnits(text[0])| + TextUnits(text[1..])
  }

  lemma {:induction false} EncodedLength(text: string)
    ensures |EncodeUtf16Le(text)| == 2 * TextUnits(text)
  {
    if text != "" {
      EncodedLength(text[1..]);
    }
  }

  /** telegram_text_length: half the encoded bytes, which is the number of code units. */
  method TelegramTextLength(text: string) returns (n: nat)
    ensures n == TextUnits(text)
  {
    EncodedLength(text);
    n := |EncodeUtf16Le(text)| / 2;
  }

  lemma {:induction false} TextUnitsAppend(a: string, b: string)
    ensures TextUnits(a + b) == TextUnits(a) + TextUnits(b)
  {
    if a == "" {
      assert a + b == b;
    } else {
      assert (a + b)[1..] == a[1..] + b;
      TextUnitsAppend(a[1..], b);
    }
  }

  function Concat(chunks: seq<string>): string {
    if chunks == [] then "" else Concat(chunks[..|chunks| - 1]) + chunks[|chunks| - 1]
  }

  /** What any split of a text has to satisfy: nothing lost or rewritten, no empty chunk, every chunk
      within the limit. */
  ghost predicate ValidSplit(chunks: seq<string>, text: string, maxUnits: int) {
    && Concat(chunks) == text
    && forall k | 0 <= k < |chunks| :: chunks[k] != "" && TextUnits(chunks[k]) <= maxUnits
  }

  ghost predicate EveryCharacterFits(text: string, maxUnits: int) {
    FitsUpTo(text, maxUnits, |text|)
  }

  ghost predicate FitsUpTo(text: string, maxUnits: int, n: nat)
    requires n <= |text|
  {
    n == 0 || (FitsUpTo(text, maxUnits, n - 1) && TextUnits([text[n - 1]]) <= maxUnits)
  }

  lemma {:induction false} FitsUpToMeaning(text: string, maxUnits: int, n: nat)
    requires n <= |text|
    ensures FitsUpTo(text, maxUnits, n) <==> forall i | 0 <= i < n :: TextUnits([text[i]]) <= maxUnits
  {
    if n > 0 {
      FitsUpToMeaning(text, maxUnits, n - 1);
    }
  }

  lemma {:induction false} TooWideStays(text: string, maxUnits: int, i: nat, n: nat)
    requires i < n <= |text| && TextUnits([text[i]]) > maxUnits
    ensures !FitsUpTo(text, maxUnits, n)
  {
    if i < n - 1 {
      TooWideStays(text, maxUnits, i, n - 1);
    }
  }

  /** No split of a prefix that reaches beyond position `start` gets by with `count` chunks. */
  ghost predicate NeedsMoreThan(text: string, maxUnits: int, start: nat, count: nat) {
    forall cs, j {:trigger ValidSplit(cs, text[..j], maxUnits)} |
      start < j <= |text| && ValidSplit(cs, text[..j], maxUnits) :: |cs| > count
  }

  /** When each error is raised, and that a produced split is valid and as short as any valid split. */
  method SplitTelegramText(text: string, maxUnits: int) returns (r: Result<seq<string>, SplitError>)
    ensures r == Failure(NonPositiveLimit) <==> maxUnits <= 0
    ensures r == Failure(CharacterTooWide) <==> maxUnits > 0 && !EveryCharacterFits(text, maxUnits)
    ensures r.Success? && text == "" ==> r.value == [""]
    ensures r.Success? && text != "" ==> ShortestSplit(r.value, text, maxUnits)
  {
    if maxUnits <= 0 {
      return Failure(NonPositiveLimit);
    }
    if text == "" {
      return Success([""]);
    }
    r := SplitNonEmpty(text, maxUnits);
  }

  /** The greedy loop. */
  method SplitNonEmpty(text: string, maxUnits: int) returns (r: Result<seq<string>, SplitError>)
    requires maxUnits > 0 && text != ""
    ensures r == Failure(CharacterTooWide) <==> !EveryCharacterFits(text, maxUnits)
    ensures r.Success? <==> EveryCharacterFits(text, maxUnits)
    ensures r.Success? ==> ShortestSplit(r.value, text, maxUnits)
  {
    var chunks: seq<string> := [];
    var start, usedUnits := 0, 0;
    GreedyStart(text, maxUnits);
    for index := 0 to |text|
      invariant Greedy(text, maxUnits, chunks, start, index, usedUnits)
    {
      var characterUnits := TelegramTextLength([text[index]]);
      if characterUnits > maxUnits {
        TooWideStays(text, maxUnits, index, |text|);
        return Failure(CharacterTooWide);
      }
      GreedyStep(text, maxUnits, chunks, start, index, usedUnits, characterUnits);
      if usedUnits + characterUnits > maxUnits {
        chunks := chunks + [text[start..index]];
        start := index;
        usedUnits := 0;
      }
      usedUnits := usedUnits + characterUnits;
    }
    GreedyEnd(text, maxUnits, chunks, start, usedUnits);
    r := Success(chunks + [text[start..]]);
  }

  ghost predicate ShortestSplit(chunks: seq<string>, text: string, maxUnits: int) {
    && ValidSplit(chunks, text, maxUnits)
    && forall other {:trigger ValidSplit(other, text, maxUnits)} | ValidSplit(other, text, maxUnits) ::
      |chunks| <= |other|
  }

  /** The loop invariant: the finished chunks split text[..start], the open chunk is text[start..index]
      and fits, and no split reaching beyond `start` makes do with the finished chunks' number. */
  ghost predicate Greedy(text: string, maxUnits: int, chunks: seq<string>, start: int, index: int, usedUnits: int) {
    && 0 <= start <= index <= |text| && (index > 0 ==> start < index)
    && FitsUpTo(text, maxUnits, index)
    && usedUnits == TextUnits(text[start..index]) <= maxUnits
    && ValidSplit(chunks, text[..start], maxUnits)
    && NeedsMoreThan(text, maxUnits, start, |chunks|)
  }

  lemma {:induction false} GreedyStart(text: string, maxUnits: int)
    requires maxUnits > 0
    ensures Greedy(text, maxUnits, [], 0, 0, 0)
  {
    NothingForFree(text, maxUnits);
  }

  lemma {:induction false} GreedyStep(text: string, maxUnits: int, chunks: seq<string>, start: int, index: int,
                                      usedUnits: int, units: nat)
    requires Greedy(text, maxUnits, chunks, start, index, usedUnits)
    requires index < |text| && units == TextUnits([text[index]]) <= maxUnits
    ensures usedUnits + units > maxUnits ==>
              start < index && Greedy(text, maxUnits, chunks + [text[start..index]], index, index + 1, units)
    ensures usedUnits + units <= maxUnits ==> Greedy(text, maxUnits, chunks, start, index + 1, usedUnits + units)
  {
    LengthOfNext(text, start, index);
    if usedUnits + units > maxUnits {
      assert start < index;
      CutIsForced(text, maxUnits, start, index, |chunks|);
      ExtendSplit(chunks, text, start, index, maxUnits);
      assert text[index..index + 1] == [text[index]];
    }
  }

  lemma {:induction false} GreedyEnd(text: string, maxUnits: int, chunks: seq<string>, start: int, usedUnits: int)
    requires Greedy(text, maxUnits, chunks, start, |text|, usedUnits) && start < |text|
    ensures ShortestSplit(chunks + [text[start..]], text, maxUnits)
  {
    ExtendSplit(chunks, text, start, |text|, maxUnits);
    assert text[start..|text|] == text[start..] && text[..|text|] == text;
    NoShorterSplit(text, maxUnits, start, |chunks|);
  }

  lemma {:induction false} NoShorterSplit(text: string, maxUnits: int, start: nat, count: nat)
    requires start < |text| && NeedsMoreThan(text, maxUnits, start, count)
    ensures forall other | ValidSplit(other, text, maxUnits) :: count < |other|
  {
    assert text[..|text|] == text;
  }

  lemma {:induction false} LengthOfNext(text: string, start: nat, index: nat)
    requires start <= index < |text|
    ensures TextUnits(text[start..index + 1]) == TextUnits(text[start..index]) + TextUnits([text[index]])
  {
    assert text[start..index + 1] == text[start..index] + [text[index]];
    TextUnitsAppend(text[start..index], [text[index]]);
  }

  lemma {:induction false} ExtendSplit(chunks: seq<string>, text: string, start: nat, end: nat, maxUnits: int)
    requires start < end <= |text|
    requires ValidSplit(chunks, text[..start], maxUnits) && TextUnits(text[start..end]) <= maxUnits
    ensures ValidSplit(chunks + [text[start..end]], text[..end], maxUnits)
  {
    var chunk := text[start..end];
    assert (chunks + [chunk])[..|chunks|] == chunks;
    assert Concat(chunks + [chunk]) == Concat(chunks) + chunk;
    assert text[..start] + chunk == text[..end];
  }

  lemma {:induction false} NothingForFree(text: string, maxUnits: int)
    ensures NeedsMoreThan(text, maxUnits, 0, 0)
  {
    forall cs, j | 0 < j <= |text| && ValidSplit(cs, text[..j], maxUnits)
      ensures |cs| > 0
    {
      assert text[..j] != "";
    }
  }

  /** The exchange step: when text[start..index+1] is too wide for one chunk, any split that reaches
      beyond `index` spends its last chunk strictly after `start`. */
  lemma {:induction false} CutIsForced(text: string, maxUnits: int, start: nat, index: nat, count: nat)
    requires start <= index < |text|
    requires TextUnits(text[start..index + 1]) > maxUnits
    requires NeedsMoreThan(text, maxUnits, start, count)
    ensures NeedsMoreThan(text, maxUnits, index, count + 1)
  {
    forall cs, j | index < j <= |text| && ValidSplit(cs, text[..j], maxUnits)
      ensures |cs| > count + 1
    {
      LastChunkIsExtra(text, maxUnits, start, index, count, cs, j);
    }
  }

  lemma {:induction false} LastChunkIsExtra(text: string, maxUnits: int, start: nat, index: nat, count: nat,
                                            cs: seq<string>, j: nat)
    requires start <= index < j <= |text| && TextUnits(text[start..index + 1]) > maxUnits
    requires NeedsMoreThan(text, maxUnits, start, count) && ValidSplit(cs, text[..j], maxUnits)
    ensures |cs| > count + 1
  {
    var b := DropLastChunk(cs, text, j, maxUnits);
    LateStart(text, maxUnits, b, start, index, j);
    assert |cs[..|cs| - 1]| > count;
  }

  lemma {:induction false} LateStart(text: string, maxUnits: int, b: nat, start: nat, index: nat, j: nat)
    requires b <= j && start <= index < j <= |text|
    requires TextUnits(text[start..index + 1]) > maxUnits >= TextUnits(text[b..j])
    ensures b > start
  {
    if b <= start {
      WindowIsWider(text, b, start, index + 1, j);
    }
  }

  /** Removing the last chunk of a split of text[..j] leaves a split of a shorter prefix text[..b]. */
  lemma {:induction false} DropLastChunk(cs: seq<string>, text: string, j: nat, maxUnits: int) returns (b: nat)
    requires 0 < j <= |text| && ValidSplit(cs, text[..j], maxUnits)
    ensures |cs| > 0 && b < j
    ensures ValidSplit(cs[..|cs| - 1], text[..b], maxUnits)
    ensures TextUnits(text[b..j]) <= maxUnits
  {
    assert text[..j] != "";
    var front, last := cs[..|cs| - 1], cs[|cs| - 1];
    b := j - |last|;
    assert text[..j] == Concat(front) + last;
    assert text[..b] == text[..j][..b] == Concat(front);
    assert text[b..j] == text[..j][b..] == last;
  }

  lemma {:induction false} WindowIsWider(text: string, b: nat, s: nat, t: nat, j: nat)
    requires b <= s <= t <= j <= |text|
    ensures TextUnits(text[b..j]) >= TextUnits(text[s..t])
  {
    WindowSplits(text, b, s, j);
    TextUnitsAppend(text[b..s], text[s..j]);
    WindowSplits(text, s, t, j);
    TextUnitsAppend(text[s..t], text[t..j]);
  }

  lemma {:induction false} WindowSplits(text: string, a: nat, b: nat, c: nat)
    requires a <= b <= c <= |text|
    ensures text[a..c] == text[a..b] + text[b..c]
  {
  }

  /** The splitter gives up on a character only when no split of the text exists at all. */
  lemma {:induction false} SplittableOnlyIfEveryCharacterFits(cs: seq<string>, text: string, maxUnits: int)
    requires ValidSplit(cs, text, maxUnits)
    ensures EveryCharacterFits(text, maxUnits)
    decreases |text|
  {
    if text != "" {
      assert text[..|text|] == text;
      var b := DropLastChunk(cs, text, |text|, maxUnits);
      FitsUpToMeaning(text, maxUnits, |text|);
      FitsUpToMeaning(text[..b], maxUnits, b);
      SplittableOnlyIfEveryCharacterFits(cs[..|cs| - 1], text[..b], maxUnits);
      forall i | 0 <= i < |text|
        ensures TextUnits([text[i]]) <= maxUnits
      {
        if i < b {
          assert text[i] == text[..b][i];
        } else {
          WindowIsWider(text, b, i, i + 1, |text|);
          assert text[i..i + 1] == [text[i]];
        }
      }
    }
  }
}
