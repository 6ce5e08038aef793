/**
 * Wake-word detection on recogniser transcripts (processRecognitionResult,
 * index.js:185-200) and the voice-command table handed to the recogniser
 * library (setupAnnyangCommands, index.js:131-150).
 */
module WakeWord {
  import opened Wrappers
  import opened TextNormalization

  /** The assistant's name, accented as in three of the wake words. */
  const NAME: string := "inocêncio"

  /** The name as normalizeText writes it. */
  const PLAIN: string := "inocencio"

  /** WAKE_WORDS (index.js:3): "inocêncio", "inocencio", "hey inocêncio", "oi inocêncio". */
  const WAKE_WORDS: seq<string> := [NAME, "inocencio", "hey " + NAME, "oi " + NAME]

  /** The three fixed commands added after the wake words (index.js:146-148). */
  const EMERGENCY_COMMANDS: seq<string> := ["ativar sistema", "acordar", "começar"]

  // ---------------------------------------------------------------------
  // Substring test
  // ---------------------------------------------------------------------

  /** `word` occurs in `text` starting at position `i`. */
  ghost predicate OccursAt(text: string, word: string, i: int) {
    0 <= i <= |text| - |word| && text[i..i + |word|] == word
  }

  /** `word` occurs in `text` at some position. */
  ghost predicate Occurs(text: string, word: string) {
    exists i :: OccursAt(text, word, i)
  }

  /** Past a position where `word` does not start, the occurrences are those in the rest. */
  lemma OccursInRest(text: string, word: string)
    requires text != [] && !(word <= text)
    ensures Occurs(text, word) <==> Occurs(text[1..], word)
  {
    if Occurs(text[1..], word) {
      var i :| OccursAt(text[1..], word, i);
      assert OccursAt(text, word, i + 1);
    }
    if Occurs(text, word) {
      var i :| OccursAt(text, word, i);
      assert i != 0;
      assert OccursAt(text[1..], word, i - 1);
    }
  }

  /** `String.prototype.includes`, as a left-to-right scan. */
  function Includes(text: string, word: string): (b: bool)
    ensures b <==> Occurs(text, word)
  {
    if word <= text then
      assert OccursAt(text, word, 0);
      true
    else if text == [] then
      false
    else
      OccursInRest(text, word);
      Includes(text[1..], word)
  }

  /** An occurrence inside an occurrence is an occurrence. */
  lemma OccursTransitive(text: string, mid: string, word: string)
    requires Occurs(text, mid) && Occurs(mid, word)
    ensures Occurs(text, word)
  {
    var i :| OccursAt(text, mid, i);
    var j :| OccursAt(mid, word, j);
    forall k | 0 <= k < |word| ensures text[i + j + k] == word[k] {
      assert text[i + j + k] == mid[j + k];
    }
    assert OccursAt(text, word, i + j);
  }

  // ---------------------------------------------------------------------
  // The wake-word test
  // ---------------------------------------------------------------------

  /** The `WAKE_WORDS.some(...)` test: some normalised wake word is a
      substring of the normalised transcript. Each of them holds the plain
      name, so a transcript that passes holds it too. */
  predicate HasWakeWord(transcript: string)
    ensures HasWakeWord(transcript) ==> Occurs(Normalize(transcript), PLAIN)
  {
    var n := Normalize(transcript);
    assert forall k :: 0 <= k < |WAKE_WORDS| && Includes(n, Normalize(WAKE_WORDS[k])) ==> Occurs(n, PLAIN) by {
      forall k | 0 <= k < |WAKE_WORDS| && Includes(n, Normalize(WAKE_WORDS[k])) ensures Occurs(n, PLAIN) {
        WakeWordsHoldName(k);
        OccursTransitive(n, Normalize(WAKE_WORDS[k]), PLAIN);
      }
    }
    exists k :: 0 <= k < |WAKE_WORDS| && Includes(n, Normalize(WAKE_WORDS[k]))
  }

  /** processRecognitionResult's guard on its argument: a present, non-empty
      list of alternatives whose first one, lower-cased, holds a wake word.
      An absent or empty list never passes, and a passing first alternative
      holds the plain name once normalised. */
  predicate WakeWordHeard(phrases: Option<seq<string>>)
    ensures WakeWordHeard(phrases) ==>
      phrases.Some? && |phrases.value| > 0 && Occurs(Normalize(phrases.value[0]), PLAIN)
  {
    phrases.Some? && |phrases.value| > 0 &&
      (NormalizeIgnoresLowering(phrases.value[0]); HasWakeWord(ToLower(phrases.value[0])))
  }


  // ---------------------------------------------------------------------
  // The wake words after normalisation
  // ---------------------------------------------------------------------

  /** A left-to-right check of the conditions IsNormalized puts on every
      character, cheap to decide for a literal. */
  predicate NormalScan(s: string) {
    s == [] || (IsNormalChar(s[0]) && (|s| > 1 && s[0] == ' ' ==> s[1] != ' ') && NormalScan(s[1..]))
  }

  lemma {:induction false} NormalScanSound(s: string)
    requires NormalScan(s)
    ensures forall i :: 0 <= i < |s| ==> IsNormalChar(s[i])
    ensures forall i :: 0 <= i < |s| - 1 ==> s[i] == ' ' ==> s[i + 1] != ' '
  {
    if s != [] {
      NormalScanSound(s[1..]);
      forall i | 1 <= i < |s| ensures s[i] == s[1..][i - 1] {}
    }
  }

  lemma ScannedIsNormalized(s: string)
    requires NormalScan(s) && (s != [] ==> s[0] != ' ' && s[|s| - 1] != ' ')
    ensures IsNormalized(s)
  {
    NormalScanSound(s);
  }

  lemma PlainIsNormalized()
    ensures IsNormalized(PLAIN)
  {
    assert NormalScan(PLAIN);
    ScannedIsNormalized(PLAIN);
  }

  /** A word and a blank in front of a normalised text keep it normalised. */
  lemma PrefixKeepsNormalized(p: string, b: string)
    requires NormalScan(p) && |p| >= 2 && p[0] != ' ' && p[|p| - 1] == ' '
    requires IsNormalized(b) && b != []
    ensures IsNormalized(p + b)
  {
    NormalScanSound(p);
    var s := p + b;
    forall i | 0 <= i < |s| ensures IsNormalChar(s[i]) {
      if i >= |p| { assert s[i] == b[i - |p|]; } else { assert s[i] == p[i]; }
    }
    forall i | 0 <= i < |s| - 1 ensures s[i] == ' ' ==> s[i + 1] != ' ' {
      if i >= |p| {
        assert s[i] == b[i - |p|] && s[i + 1] == b[i - |p| + 1];
      } else if i < |p| - 1 {
        assert s[i] == p[i] && s[i + 1] == p[i + 1];
      } else {
        assert s[i + 1] == b[0];
      }
    }
  }

  /** Folding turns `ê` into a plain `e`: it decomposes to `e` and U+0302, and the mark is dropped. */
  lemma FoldCircumflexE()
    ensures Fold(['\U{EA}']) == ['e']
  {
    assert ToLower(['\U{EA}']) == ['\U{EA}'];
    assert Nfd(['\U{EA}']) == ['e', '\U{0302}'];
    assert StripMarks(['e', '\U{0302}']) == ['e'] + StripMarks(['\U{0302}']);
  }

  lemma FoldAround(a: string, e: string, b: string)
    requires NormalScan(a) && NormalScan(b) && Fold(e) == ['e']
    ensures Fold(a + e + b) == a + ['e'] + b
  {
    NormalScanSound(a);
    NormalScanSound(b);
    FoldKeepsNormalChars(a);
    FoldKeepsNormalChars(b);
    FoldAppend(a + e, b);
    FoldAppend(a, e);
  }

  lemma FoldNameParts()
    ensures Fold("inoc" + ['\U{EA}'] + "ncio") == PLAIN
  {
    FoldCircumflexE();
    assert NormalScan("inoc") && NormalScan("ncio");
    FoldAround("inoc", ['\U{EA}'], "ncio");
  }

  lemma NameParts()
    ensures NAME == "inoc" + ['\U{EA}'] + "ncio"
  {
  }

  /** Lower-casing, decomposing and stripping turn the accented name into its plain spelling. */
  lemma FoldName()
    ensures Fold(NAME) == PLAIN
  {
    NameParts();
    FoldNameParts();
  }

  /** When the first three steps already give a normalised text, the last three change nothing. */
  lemma FoldedNormalizes(s: string, n: string)
    requires Fold(s) == n && IsNormalized(n)
    ensures Normalize(s) == n
  {
    SpacingKeepsNormalized(n);
  }

  lemma FoldPrefixed(p: string, w: string, n: string)
    requires NormalScan(p) && Fold(w) == n
    ensures Fold(p + w) == p + n
  {
    NormalScanSound(p);
    FoldKeepsNormalChars(p);
    FoldAppend(p, w);
  }

  lemma NormalizePrefixedName(p: string)
    requires NormalScan(p) && |p| >= 2 && p[0] != ' ' && p[|p| - 1] == ' '
    ensures Normalize(p + NAME) == p + PLAIN
  {
    FoldName();
    FoldPrefixed(p, NAME, PLAIN);
    PlainIsNormalized();
    PrefixKeepsNormalized(p, PLAIN);
    FoldedNormalizes(p + NAME, p + PLAIN);
  }

  lemma NormalizedWakeWord0()
    ensures Normalize(WAKE_WORDS[0]) == PLAIN
  {
    FoldName();
    PlainIsNormalized();
    FoldedNormalizes(NAME, PLAIN);
  }

  lemma NormalizedWakeWord1()
    ensures Normalize(WAKE_WORDS[1]) == PLAIN
  {
    assert WAKE_WORDS[1] == PLAIN;
    PlainIsNormalized();
    NormalizeKeepsNormalized(PLAIN);
  }

  lemma NormalizedWakeWord2()
    ensures Normalize(WAKE_WORDS[2]) == "hey " + PLAIN
  {
    assert NormalScan("hey ");
    NormalizePrefixedName("hey ");
  }

  lemma NormalizedWakeWord3()
    ensures Normalize(WAKE_WORDS[3]) == "oi " + PLAIN
  {
    assert NormalScan("oi ");
    NormalizePrefixedName("oi ");
  }

  /** What each wake word becomes under normalizeText: the accented and the
      plain spelling coincide, and the greetings keep their word in front. */
  lemma NormalizedWakeWords()
    ensures Normalize(WAKE_WORDS[0]) == Normalize(WAKE_WORDS[1]) == PLAIN
    ensures Normalize(WAKE_WORDS[2]) == "hey " + PLAIN
    ensures Normalize(WAKE_WORDS[3]) == "oi " + PLAIN
  {
    NormalizedWakeWord0();
    NormalizedWakeWord1();
    NormalizedWakeWord2();
    NormalizedWakeWord3();
  }

  // ---------------------------------------------------------------------
  // What the wake-word test accepts
  // ---------------------------------------------------------------------

  lemma OccursAfter(p: string, w: string)
    ensures Occurs(p + w, w)
  {
    assert OccursAt(p + w, w, |p|);
  }

  lemma OccursItself(w: string)
    ensures Occurs(w, w)
  {
    assert OccursAt(w, w, 0);
  }

  /** Every normalised wake word contains the plain name. */
  lemma WakeWordsHoldName(k: int)
    requires 0 <= k < |WAKE_WORDS|
    ensures Occurs(Normalize(WAKE_WORDS[k]), PLAIN)
  {
    OccursItself(PLAIN);
    if k == 0 {
      NormalizedWakeWord0();
    } else if k == 1 {
      NormalizedWakeWord1();
    } else if k == 2 {
      NormalizedWakeWord2();
      OccursAfter("hey ", PLAIN);
    } else {
      NormalizedWakeWord3();
      OccursAfter("oi ", PLAIN);
    }
  }

  /** All four wake words reduce to one test: the transcript, normalised,
      contains "inocencio" (the greetings only add a word in front of it). */
  lemma HasWakeWordIff(transcript: string)
    ensures HasWakeWord(transcript) <==> Occurs(Normalize(transcript), PLAIN)
  {
    var n := Normalize(transcript);
    if HasWakeWord(transcript) {
      var k :| 0 <= k < |WAKE_WORDS| && Includes(n, Normalize(WAKE_WORDS[k]));
      WakeWordsHoldName(k);
      OccursTransitive(n, Normalize(WAKE_WORDS[k]), PLAIN);
    }
    if Occurs(n, PLAIN) {
      NormalizedWakeWord1();
      assert Includes(n, Normalize(WAKE_WORDS[1]));
    }
  }

  /** Lower-casing twice is lower-casing once. */
  lemma ToLowerIdempotent(s: string)
    ensures ToLower(ToLower(s)) == ToLower(s)
  {
  }

  /** normalizeText starts by lower-casing, so lower-casing first changes nothing. */
  lemma NormalizeIgnoresLowering(s: string)
    ensures Normalize(ToLower(s)) == Normalize(s)
  {
    ToLowerIdempotent(s);
  }

  /** processRecognitionResult's guard holds exactly when there is a first
      alternative and that alternative, normalised, contains "inocencio". */
  lemma WakeWordHeardIff(phrases: Option<seq<string>>)
    ensures WakeWordHeard(phrases) <==>
      phrases.Some? && |phrases.value| > 0 && Occurs(Normalize(phrases.value[0]), PLAIN)
  {
    if phrases.Some? && |phrases.value| > 0 {
      var best := phrases.value[0];
      NormalizeIgnoresLowering(best);
      HasWakeWordIff(ToLower(best));
    }
  }

  /** Folding lower-cases first, so lower-casing before it changes nothing. */
  lemma FoldIgnoresLowering(s: string)
    ensures Fold(ToLower(s)) == Fold(s)
  {
    ToLowerIdempotent(s);
  }

  lemma FoldOfLowered(v: string, w: string)
    requires ToLower(v) == w
    ensures Fold(v) == Fold(w)
  {
    FoldIgnoresLowering(v);
  }

  lemma FoldPlain()
    ensures Fold(PLAIN) == PLAIN
  {
    assert NormalScan(PLAIN);
    NormalScanSound(PLAIN);
    FoldKeepsNormalChars(PLAIN);
  }

  /** The name in any letter case, accented or plain, folds to the plain name. */
  lemma FoldsToPlain(v: string)
    requires ToLower(v) == NAME || ToLower(v) == PLAIN
    ensures Fold(v) == PLAIN
  {
    if ToLower(v) == NAME {
      FoldOfLowered(v, NAME);
      FoldName();
    } else {
      FoldOfLowered(v, PLAIN);
      FoldPlain();
    }
  }

  /** A first alternative that holds the name, in any letter case, accented
      or plain, with any text around it, passes the wake-word test:
      normalisation keeps the name whole. */
  lemma NameWakes(p: string, v: string, q: string, rest: seq<string>)
    requires ToLower(v) == NAME || ToLower(v) == PLAIN
    ensures WakeWordHeard(Some([p + v + q] + rest))
  {
    FoldsToPlain(v);
    PlainIsNormalized();
    var k := NormalizeKeepsWord(p, v, q);
    assert OccursAt(Normalize(p + v + q), PLAIN, k);
    WakeWordHeardIff(Some([p + v + q] + rest));
  }

  /** The capitalised spelling lower-cases to the name. */
  lemma CapitalisedName()
    ensures ToLower("Inocêncio") == NAME
  {
    var cap := "Inocêncio";
    assert forall i :: 0 <= i < |cap| ==> ToLower(cap)[i] == NAME[i];
  }

  /** "inocêncio" and "Inocêncio", wherever they stand in the first alternative, wake the assistant. */
  lemma NameSpellingsWake(p: string, q: string)
    ensures WakeWordHeard(Some([p + NAME + q]))
    ensures WakeWordHeard(Some([p + "Inocêncio" + q]))
  {
    assert ToLower(NAME) == NAME by {
      assert forall i :: 0 <= i < |NAME| ==> ToLower(NAME)[i] == NAME[i];
    }
    NameWakes(p, NAME, q, []);
    assert [p + NAME + q] + [] == [p + NAME + q];
    CapitalisedName();
    NameWakes(p, "Inocêncio", q, []);
    assert [p + "Inocêncio" + q] + [] == [p + "Inocêncio" + q];
  }

  // ---------------------------------------------------------------------
  // The command table
  // ---------------------------------------------------------------------

  lemma OccursBefore(w: string, q: string)
    ensures Occurs(w + q, w)
  {
    assert OccursAt(w + q, w, 0);
  }

  /** The four phrasings registered for one wake word (index.js:139-142):
      the word alone, after anything, before anything, and in between; each
      holds the word itself. */
  function Variants(word: string): (r: seq<string>)
    ensures |r| == 4 && forall i :: 0 <= i < 4 ==> Occurs(r[i], word)
  {
    OccursItself(word);
    OccursAfter("*prefix ", word);
    OccursBefore(word, " *suffix");
    OccursBefore("*prefix " + word, " *suffix");
    OccursTransitive("*prefix " + word + " *suffix", "*prefix " + word, word);
    [word, "*prefix " + word, word + " *suffix", "*prefix " + word + " *suffix"]
  }

  /** `phrases` holds the four phrasings of each of the first `n` words, in order. */
  ghost predicate Chunked(phrases: seq<string>, words: seq<string>, n: nat)
    requires n <= |words|
  {
    |phrases| == 4 * n && forall k :: 0 <= k < n ==> phrases[4 * k..4 * k + 4] == Variants(words[k])
  }

  lemma ChunkedExtend(phrases: seq<string>, words: seq<string>, n: nat)
    requires n < |words| && Chunked(phrases, words, n)
    ensures Chunked(phrases + Variants(words[n]), words, n + 1)
  {
    var longer := phrases + Variants(words[n]);
    forall k | 0 <= k < n ensures longer[4 * k..4 * k + 4] == Variants(words[k]) {
      assert longer[4 * k..4 * k + 4] == phrases[4 * k..4 * k + 4];
    }
    assert longer[4 * n..4 * n + 4] == Variants(words[n]);
  }

  /** Every phrase of a chunked table holds one of its words. */
  lemma ChunkedHoldWords(phrases: seq<string>, words: seq<string>, n: nat)
    requires n <= |words| && Chunked(phrases, words, n)
    ensures forall p :: p in phrases ==> exists k :: 0 <= k < n && Occurs(p, words[k])
  {
    forall p | p in phrases ensures exists k :: 0 <= k < n && Occurs(p, words[k]) {
      var j :| 0 <= j < |phrases| && phrases[j] == p;
      var k := j / 4;
      assert 4 * k <= j < 4 * k + 4 && k < n;
      var r := Variants(words[k]);
      assert r == phrases[4 * k..4 * k + 4];
      assert r[j - 4 * k] == p;
      assert Occurs(r[j - 4 * k], words[k]);
    }
  }

  /** setupAnnyangCommands (index.js:136-148): the phrases handed to the
      recogniser, in the order the code adds them: four per wake word, then
      the three emergency commands. Every phrase holds a wake word or is an
      emergency command, and each of them runs onWakeWordDetected. */
  method SetupCommands() returns (phrases: seq<string>)
    ensures |phrases| == 4 * |WAKE_WORDS| + |EMERGENCY_COMMANDS|
    ensures forall k :: 0 <= k < |WAKE_WORDS| ==> phrases[4 * k..4 * k + 4] == Variants(WAKE_WORDS[k])
    ensures phrases[4 * |WAKE_WORDS|..] == EMERGENCY_COMMANDS
    ensures forall p :: p in phrases ==>
      p in EMERGENCY_COMMANDS || exists k :: 0 <= k < |WAKE_WORDS| && Occurs(p, WAKE_WORDS[k])
  {
    var wakePhrases := [];
    for i := 0 to |WAKE_WORDS|
      invariant Chunked(wakePhrases, WAKE_WORDS, i)
    {
      ChunkedExtend(wakePhrases, WAKE_WORDS, i);
      wakePhrases := wakePhrases + Variants(WAKE_WORDS[i]);
    }
    ChunkedHoldWords(wakePhrases, WAKE_WORDS, |WAKE_WORDS|);
    phrases := wakePhrases + EMERGENCY_COMMANDS;
    forall k | 0 <= k < |WAKE_WORDS| ensures phrases[4 * k..4 * k + 4] == Variants(WAKE_WORDS[k]) {
      assert phrases[4 * k..4 * k + 4] == wakePhrases[4 * k..4 * k + 4];
    }
    assert phrases[4 * |WAKE_WORDS|..] == EMERGENCY_COMMANDS;
  }
}
