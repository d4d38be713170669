/**
 * The short code a human quotes to say which question is being answered: a 32-bit FNV-1a hash of
 * the intervention id in seven base-36 digits, and its recognition inside a message body.
 */
module RoutingCode {
  import opened Identifiers

  const DIGITS: nat := 7
  const CODE_LENGTH: nat := 10
  const FNV_OFFSET: bv32 := 0x811c9dc5

  // ---- The hash ----

  /** The code point as a word, put together from its three bytes. */
  function CodePoint(c: char): bv32 {
    var n := c as int;
    Word(Byte(n / 65536), Byte(n / 256 % 256), Byte(n % 256))
  }

  function Byte(n: int): (b: bv8)
    requires 0 <= n < 256
    ensures b as int == n
  {
    n as bv8
  }

  function Word(high: bv8, middle: bv8, low: bv8): bv32 {
    ((high as bv32) << 16) | ((middle as bv32) << 8) | (low as bv32)
  }

  /** The truncated product with the FNV prime. */
  function Spread(hash: bv32): bv32 {
    hash * 0x01000193
  }

  /** The product with the inverse the prime has for being odd. */
  function Gather(hash: bv32): bv32 {
    hash * 0x359c449b
  }

  function Mix(hash: bv32, word: bv32): bv32 {
    Spread(hash ^ word)
  }

  function Words(id: string): seq<bv32> {
    seq(|id|, i requires 0 <= i < |id| => CodePoint(id[i]))
  }

  function FnvOfWords(words: seq<bv32>): bv32 {
    if words == [] then FNV_OFFSET else Mix(FnvOfWords(words[..|words| - 1]), words[|words| - 1])
  }

  function Fnv(id: string): bv32 {
    FnvOfWords(Words(id))
  }

  lemma WordInjective(a: bv8, b: bv8, c: bv8, x: bv8, y: bv8, z: bv8)
    requires Word(a, b, c) == Word(x, y, z)
    ensures a == x && b == y && c == z
  {
  }

  lemma BytesDetermine(m: int, n: int)
    requires m / 65536 == n / 65536 && m / 256 % 256 == n / 256 % 256 && m % 256 == n % 256
    ensures m == n
  {
    assert m / 256 / 256 == m / 65536 && n / 256 / 256 == n / 65536;
  }

  lemma CodePointInjective(c: char, d: char)
    requires CodePoint(c) == CodePoint(d)
    ensures c == d
  {
    hide Byte, Word;
    var m, n := c as int, d as int;
    WordInjective(Byte(m / 65536), Byte(m / 256 % 256), Byte(m % 256),
                  Byte(n / 65536), Byte(n / 256 % 256), Byte(n % 256));
    BytesDetermine(m, n);
  }

  lemma ProductUndone(hash: bv32)
    ensures Gather(hash * 0x01000193) == hash
  {
  }

  /** The multiplication loses nothing. */
  lemma SpreadUndone(hash: bv32)
    ensures Gather(Spread(hash)) == hash
  {
    hide Gather;
    ProductUndone(hash);
  }

  lemma HashesKeepApart(h: bv32, k: bv32, word: bv32)
    requires h != k
    ensures Mix(h, word) != Mix(k, word)
  {
    hide Spread, Gather;
    assert (h ^ word) != (k ^ word);
    SpreadUndone(h ^ word);
    SpreadUndone(k ^ word);
  }

  lemma WordsKeepApart(h: bv32, x: bv32, y: bv32)
    requires x != y
    ensures Mix(h, x) != Mix(h, y)
  {
    hide Spread, Gather;
    assert (h ^ x) != (h ^ y);
    SpreadUndone(h ^ x);
    SpreadUndone(h ^ y);
  }

  lemma HashAppends(words: seq<bv32>, word: bv32)
    ensures FnvOfWords(words + [word]) == Mix(FnvOfWords(words), word)
  {
    assert (words + [word])[..|words|] == words;
  }

  /** Different hashes stay different under the same words. */
  lemma {:induction false} SuffixKeepsApart(a: seq<bv32>, b: seq<bv32>, tail: seq<bv32>)
    requires FnvOfWords(a) != FnvOfWords(b)
    ensures FnvOfWords(a + tail) != FnvOfWords(b + tail)
    decreases |tail|
  {
    if tail == [] {
      assert a + tail == a && b + tail == b;
    } else {
      var word := tail[0];
      HashAppends(a, word);
      HashAppends(b, word);
      HashesKeepApart(FnvOfWords(a), FnvOfWords(b), word);
      SuffixKeepsApart(a + [word], b + [word], tail[1..]);
      assert a + [word] + tail[1..] == a + tail && b + [word] + tail[1..] == b + tail;
    }
  }

  lemma WordsConcat(before: string, c: char, tail: string)
    ensures Words(before + [c] + tail) == Words(before) + [CodePoint(c)] + Words(tail)
  {
  }

  /** The published FNV-1a values of the empty text and of "a". */
  lemma KnownHashes()
    ensures Fnv("") == 0x811c9dc5 && Fnv("a") == 0xe40c292c
  {
    assert 'a' as int == 97;
    assert CodePoint('a') == 97;
    assert Words("a") == [] + [97];
    HashAppends([], 97);
  }

  /** The hash as the unsigned number the shift by zero makes of it. */
  function Unsigned(hash: bv32): (n: nat)
    ensures n < 0x1_0000_0000
  {
    hash as nat
  }

  lemma UnsignedInjective(a: bv32, b: bv32)
    requires Unsigned(a) == Unsigned(b)
    ensures a == b
  {
    assert Unsigned(a) as bv32 == a && Unsigned(b) as bv32 == b;
  }

  // ---- Base 36 ----

  function Digit(d: nat): char
    requires d < 36
  {
    if d < 10 then '0' + d as char else 'A' + (d - 10) as char
  }

  predicate IsDigit(c: char) {
    '0' <= c <= '9' || 'A' <= c <= 'Z'
  }

  function DigitValue(c: char): nat
    requires IsDigit(c)
  {
    if c <= '9' then (c - '0') as nat else (c - 'A') as nat + 10
  }

  ghost predicate AllDigits(s: string) {
    forall i :: 0 <= i < |s| ==> IsDigit(s[i])
  }

  function ToBase36(n: nat): string {
    if n < 36 then [Digit(n)] else ToBase36(n / 36) + [Digit(n % 36)]
  }

  function Zeros(n: nat): string {
    seq(n, _ => '0')
  }

  function PadStart(s: string, length: nat): string {
    if |s| >= length then s else Zeros(length - |s|) + s
  }

  /** The number a string of digits stands for: the inverse the rendering is proved against. */
  function Decode(s: string): nat
    requires AllDigits(s)
  {
    if s == "" then 0 else Decode(s[..|s| - 1]) * 36 + DigitValue(s[|s| - 1])
  }

  function Pow36(k: nat): nat {
    if k == 0 then 1 else 36 * Pow36(k - 1)
  }

  lemma {:induction false} DecodeInverts(n: nat)
    ensures AllDigits(ToBase36(n)) && Decode(ToBase36(n)) == n
  {
    if n < 36 {
      assert ToBase36(n)[..0] == "";
    } else {
      DecodeInverts(n / 36);
      assert ToBase36(n)[..|ToBase36(n)| - 1] == ToBase36(n / 36);
    }
  }

  lemma {:induction false} LengthBound(n: nat, k: nat)
    requires k > 0 && n < Pow36(k)
    ensures 1 <= |ToBase36(n)| <= k
  {
    if n >= 36 {
      assert k > 1;
      LengthBound(n / 36, k - 1);
    }
  }

  lemma {:induction false} LeadingZeros(k: nat, s: string)
    requires AllDigits(s)
    ensures AllDigits(Zeros(k) + s) && Decode(Zeros(k) + s) == Decode(s)
    decreases k + |s|
  {
    var padded := Zeros(k) + s;
    if s != "" {
      assert padded[..|padded| - 1] == Zeros(k) + s[..|s| - 1];
      LeadingZeros(k, s[..|s| - 1]);
    } else if k > 0 {
      assert padded[..|padded| - 1] == Zeros(k - 1) + "";
      LeadingZeros(k - 1, "");
    }
  }

  function Render(n: nat): string {
    PadStart(ToBase36(n), DIGITS)
  }

  lemma SevenDigitsSuffice()
    ensures 0x1_0000_0000 <= Pow36(DIGITS)
  {
    assert Pow36(3) == 46656;
    assert Pow36(7) == 36 * 36 * 36 * 36 * Pow36(3);
  }

  /** Every 32-bit number has exactly seven digits, and they decode to it. */
  lemma RenderRoundTrip(n: nat)
    requires n < 0x1_0000_0000
    ensures |Render(n)| == DIGITS && AllDigits(Render(n)) && Decode(Render(n)) == n
  {
    SevenDigitsSuffice();
    LengthBound(n, DIGITS);
    DecodeInverts(n);
    LeadingZeros(DIGITS - |ToBase36(n)|, ToBase36(n));
    assert Zeros(0) + ToBase36(n) == ToBase36(n);
  }

  // ---- The code ----

  function Hash(id: string): (n: nat)
    ensures n < 0x1_0000_0000
  {
    Unsigned(Fnv(id))
  }

  function Code(id: string): string {
    "DK-" + Render(Hash(id))
  }

  method InterventionCode(id: string) returns (code: string)
    ensures code == Code(id)
  {
    var hash := FNV_OFFSET;
    for i := 0 to |id|
      invariant hash == FnvOfWords(Words(id)[..i])
    {
      assert Words(id)[..i + 1][..i] == Words(id)[..i];
      hash := Mix(hash, CodePoint(id[i]));
    }
    assert Words(id)[..|id|] == Words(id);
    code := "DK-" + PadStart(ToBase36(Unsigned(hash)), DIGITS);
  }

  /** Two interventions share a code exactly when their 32-bit hashes collide. */
  lemma SameCodeIffSameHash(a: string, b: string)
    ensures Code(a) == Code(b) <==> Fnv(a) == Fnv(b)
  {
    RenderRoundTrip(Hash(a));
    RenderRoundTrip(Hash(b));
    assert Code(a)[3..] == Render(Hash(a)) && Code(b)[3..] == Render(Hash(b));
    if Code(a) == Code(b) {
      UnsignedInjective(Fnv(a), Fnv(b));
    }
  }

  /** Ids that differ in a single character never share a code. */
  lemma OneCharacterMatters(before: string, c: char, d: char, tail: string)
    requires c != d
    ensures Fnv(before + [c] + tail) != Fnv(before + [d] + tail)
    ensures Code(before + [c] + tail) != Code(before + [d] + tail)
  {
    hide CodePoint, Mix;
    WordsConcat(before, c, tail);
    WordsConcat(before, d, tail);
    if CodePoint(c) == CodePoint(d) {
      CodePointInjective(c, d);
    }
    HashAppends(Words(before), CodePoint(c));
    HashAppends(Words(before), CodePoint(d));
    WordsKeepApart(Fnv(before), CodePoint(c), CodePoint(d));
    SuffixKeepsApart(Words(before) + [CodePoint(c)], Words(before) + [CodePoint(d)], Words(tail));
    SameCodeIffSameHash(before + [c] + tail, before + [d] + tail);
  }

  // ---- Recognition ----

  function Upper(c: char): char {
    if 'a' <= c <= 'z' then c - 'a' + 'A' else c
  }

  function UpperCase(s: string): string {
    seq(|s|, i requires 0 <= i < |s| => Upper(s[i]))
  }

  /** The class \w. */
  predicate IsWord(c: char) {
    'a' <= c <= 'z' || 'A' <= c <= 'Z' || '0' <= c <= '9' || c == '_'
  }

  predicate WordAt(s: string, i: int) {
    0 <= i < |s| && IsWord(s[i])
  }

  /** The assertion \b. */
  predicate Boundary(s: string, i: int) {
    WordAt(s, i - 1) != WordAt(s, i)
  }

  /** The pattern matches at `i`: DK-, seven alphanumerics of either case, and a boundary on both sides. */
  predicate MatchAt(s: string, i: nat) {
    && i + CODE_LENGTH <= |s|
    && Boundary(s, i) && Boundary(s, i + CODE_LENGTH)
    && Upper(s[i]) == 'D' && Upper(s[i + 1]) == 'K' && s[i + 2] == '-'
    && forall j :: i + 3 <= j < i + CODE_LENGTH ==> IsDigit(Upper(s[j]))
  }

  function ExtractFrom(body: string, i: nat): Option<string>
    decreases |body| - i
  {
    if i + CODE_LENGTH > |body| then None
    else if MatchAt(body, i) then Some(UpperCase(body[i..i + CODE_LENGTH]))
    else ExtractFrom(body, i + 1)
  }

  function ExtractInterventionCode(body: string): Option<string> {
    ExtractFrom(body, 0)
  }

  ghost predicate FirstMatch(body: string, from: nat, i: nat) {
    from <= i && MatchAt(body, i) && forall j: nat :: from <= j < i ==> !MatchAt(body, j)
  }

  /** The result is the leftmost match in upper case, and there is none exactly when nothing matches. */
  lemma {:induction false} ExtractMeaning(body: string, from: nat)
    ensures forall i: nat :: FirstMatch(body, from, i) ==>
              ExtractFrom(body, from) == Some(UpperCase(body[i..i + CODE_LENGTH]))
    ensures ExtractFrom(body, from).None? <==> forall i: nat :: i >= from ==> !MatchAt(body, i)
    decreases |body| - from
  {
    if from + CODE_LENGTH <= |body| && !MatchAt(body, from) {
      ExtractMeaning(body, from + 1);
      forall i: nat | FirstMatch(body, from, i)
        ensures FirstMatch(body, from + 1, i)
      {
      }
      forall i: nat | i >= from && MatchAt(body, i)
        ensures i >= from + 1
      {
      }
    }
  }

  /**
   * A human who writes a code anywhere in a reply, in letters of either case, set off from the words
   * around it and with no other code before it, is understood as quoting that code; in particular the
   * code alone is.
   */
  lemma QuotedCodeIsFound(before: string, id: string, written: string, after: string)
    requires ExtractInterventionCode(before).None? && UpperCase(written) == Code(id)
    requires !WordAt(before, |before| - 1) && !WordAt(after, 0)
    ensures ExtractInterventionCode(before + written + after) == Some(Code(id))
  {
    var at, body := |before|, before + written + after;
    CodeIsUpperCase(id);
    assert |written| == |UpperCase(written)| == CODE_LENGTH && body[at..at + CODE_LENGTH] == written;
    CodeMatches(body, at, id);
    forall j: nat | j < at
      ensures !MatchAt(body, j)
    {
      NoEarlierMatch(before, body, j);
    }
    assert FirstMatch(body, 0, at);
    ExtractMeaning(body, 0);
  }

  /** `code` is written at `i`, in either case, and no word runs into it. */
  predicate SetOffAt(body: string, i: nat, code: string) {
    && i + CODE_LENGTH <= |body| && UpperCase(body[i..i + CODE_LENGTH]) == code
    && !WordAt(body, i - 1) && !WordAt(body, i + CODE_LENGTH)
  }

  /** Only a code that is set off from the words around it is taken for one. */
  lemma FoundIsSetOff(body: string)
    requires ExtractInterventionCode(body).Some?
    ensures var code := ExtractInterventionCode(body).value;
            && |code| == CODE_LENGTH && code[..3] == "DK-" && AllDigits(code[3..])
            && exists i: nat :: SetOffAt(body, i, code)
  {
    ExtractMeaning(body, 0);
    var i: nat :| MatchAt(body, i);
    i := Leftmost(body, i);
    assert FirstMatch(body, 0, i);
    var code := UpperCase(body[i..i + CODE_LENGTH]);
    assert forall k :: 0 <= k < CODE_LENGTH ==> code[k] == Upper(body[i + k]);
    assert code[0] == 'D' && code[1] == 'K' && code[2] == '-';
    assert IsDigit(Upper(body[i + 9])) && WordAt(body, i) && WordAt(body, i + 9);
    assert SetOffAt(body, i, code);
  }

  lemma {:induction false} Leftmost(body: string, i: nat) returns (first: nat)
    requires MatchAt(body, i)
    ensures FirstMatch(body, 0, first)
  {
    if j: nat :| j < i && MatchAt(body, j) {
      first := Leftmost(body, j);
    } else {
      first := i;
    }
  }

  lemma CodeIsUpperCase(id: string)
    ensures |Code(id)| == CODE_LENGTH && UpperCase(Code(id)) == Code(id)
  {
    RenderRoundTrip(Hash(id));
    var code := Code(id);
    forall i | 0 <= i < |code|
      ensures Upper(code[i]) == code[i]
    {
      assert i >= 3 ==> code[i] == Render(Hash(id))[i - 3];
    }
  }

  lemma CodeMatches(body: string, at: nat, id: string)
    requires at + CODE_LENGTH <= |body| && UpperCase(body[at..at + CODE_LENGTH]) == Code(id)
    requires !WordAt(body, at - 1) && !WordAt(body, at + CODE_LENGTH)
    ensures MatchAt(body, at)
  {
    RenderRoundTrip(Hash(id));
    var code := Code(id);
    forall j | at <= j < at + CODE_LENGTH
      ensures Upper(body[j]) == code[j - at]
    {
      assert UpperCase(body[at..at + CODE_LENGTH])[j - at] == Upper(body[at..at + CODE_LENGTH][j - at]);
    }
    forall j | at + 3 <= j < at + CODE_LENGTH
      ensures IsDigit(Upper(body[j]))
    {
      assert code[j - at] == Render(Hash(id))[j - at - 3];
    }
    assert code[0] == 'D' && code[1] == 'K' && code[2] == '-';
    assert IsWord(body[at]) && IsWord(body[at + 9]);
  }

  /** A match cannot straddle the start of a code: the one hyphen it allows would come too soon. */
  lemma NoEarlierMatch(before: string, body: string, j: nat)
    requires ExtractInterventionCode(before).None?
    requires |before| + 3 <= |body| && before == body[..|before|] && !WordAt(before, |before| - 1)
    requires body[|before| + 2] == '-' && j < |before|
    ensures !MatchAt(body, j)
  {
    var at := |before|;
    ExtractMeaning(before, 0);
    if MatchAt(body, j) {
      assert before[at - 1] == body[at - 1];
      if j + CODE_LENGTH <= at {
        assert forall k :: 0 <= k < at ==> before[k] == body[k];
        assert IsWord(body[j + 9]);
        assert MatchAt(before, j);
      } else {
        assert false;
      }
    }
  }
}
