/**
 * The text normalisation that the voice assistant applies to a transcript and
 * to each wake word before comparing them (normalizeText in index.js):
 *
 *   lower-case, decompose (NFD), drop combining marks U+0300..U+036F,
 *   replace every character that is neither `\w` nor `\s` by a space,
 *   collapse each run of whitespace to one space, trim.
 *
 * Character model: the regular expressions carry no `u` flag, so `\w` is the
 * ASCII class [A-Za-z0-9_]; `\s` (and what `trim` removes) is the full
 * JavaScript WhiteSpace and LineTerminator set. Lower-casing and canonical
 * decomposition are given for Basic Latin and the Latin-1 Supplement
 * (U+0000..U+00FF), which holds every accented letter of Portuguese; every
 * other character is taken to have no lower-case mapping and no canonical
 * decomposition.
 */
module TextNormalization {

  // ---------------------------------------------------------------------
  // Character classes
  // ---------------------------------------------------------------------

  /** `\w` without the `u` flag: only ASCII characters qualify. */
  predicate IsWordChar(c: char)
    ensures IsWordChar(c) ==> c as int < 0x80
  {
    ('a' <= c <= 'z') || ('A' <= c <= 'Z') || ('0' <= c <= '9') || c == '_'
  }

  /** `\s`: the JavaScript WhiteSpace and LineTerminator code points; none
      of them is a word character or a combining mark. */
  predicate IsSpace(c: char)
    ensures IsSpace(c) ==> !IsWordChar(c) && !IsCombiningMark(c)
  {
    var n := c as int;
    (0x09 <= n <= 0x0D) || n == 0x20 || n == 0xA0 || n == 0x1680
    || (0x2000 <= n <= 0x200A) || n == 0x2028 || n == 0x2029 || n == 0x202F
    || n == 0x205F || n == 0x3000 || n == 0xFEFF
  }

  /** The range the code strips after decomposition. */
  predicate IsCombiningMark(c: char) {
    0x300 <= c as int <= 0x36F
  }

  predicate IsAsciiUpper(c: char) {
    'A' <= c <= 'Z'
  }

  /** Capital letters that `toLowerCase` changes within U+0000..U+00FF. */
  predicate IsCapital(c: char) {
    IsAsciiUpper(c) || ('\U{C0}' <= c <= '\U{DE}' && c != '\U{D7}')
  }

  /** The characters a normalised text is made of. */
  predicate IsNormalChar(c: char) {
    ('a' <= c <= 'z') || ('0' <= c <= '9') || c == '_' || c == ' '
  }

  // ---------------------------------------------------------------------
  // The pipeline, one step per call in the method chain
  // ---------------------------------------------------------------------

  /** `toLowerCase` on one character: each capital moves down by 0x20. */
  function LowerChar(c: char): (r: char)
    ensures !IsCapital(r)
    ensures !IsCapital(c) ==> r == c
  {
    if IsCapital(c) then (c as int + 0x20) as char else c
  }

  /** `toLowerCase`: same length, no capital left, and every other character kept in place. */
  function ToLower(s: string): (r: string)
    ensures |r| == |s|
    ensures forall i :: 0 <= i < |r| ==> !IsCapital(r[i])
    ensures forall i :: 0 <= i < |s| ==> !IsCapital(s[i]) ==> r[i] == s[i]
  {
    seq(|s|, i requires 0 <= i < |s| => LowerChar(s[i]))
  }

  /** Canonical decomposition of one character of U+0000..U+00FF. */
  function Decompose(c: char): (r: seq<char>)
    ensures 1 <= |r| <= 2
    ensures c as int < 0xC0 ==> r == [c]
    ensures !IsCapital(c) ==> forall x :: x in r ==> !IsAsciiUpper(x)
  {
    match c
    case 'À' => ['A', '\U{0300}']
    case 'Á' => ['A', '\U{0301}']
    case 'Â' => ['A', '\U{0302}']
    case 'Ã' => ['A', '\U{0303}']
    case 'Ä' => ['A', '\U{0308}']
    case 'Å' => ['A', '\U{030A}']
    case 'Ç' => ['C', '\U{0327}']
    case 'È' => ['E', '\U{0300}']
    case 'É' => ['E', '\U{0301}']
    case 'Ê' => ['E', '\U{0302}']
    case 'Ë' => ['E', '\U{0308}']
    case 'Ì' => ['I', '\U{0300}']
    case 'Í' => ['I', '\U{0301}']
    case 'Î' => ['I', '\U{0302}']
    case 'Ï' => ['I', '\U{0308}']
    case 'Ñ' => ['N', '\U{0303}']
    case 'Ò' => ['O', '\U{0300}']
    case 'Ó' => ['O', '\U{0301}']
    case 'Ô' => ['O', '\U{0302}']
    case 'Õ' => ['O', '\U{0303}']
    case 'Ö' => ['O', '\U{0308}']
    case 'Ù' => ['U', '\U{0300}']
    case 'Ú' => ['U', '\U{0301}']
    case 'Û' => ['U', '\U{0302}']
    case 'Ü' => ['U', '\U{0308}']
    case 'Ý' => ['Y', '\U{0301}']
    case 'à' => ['a', '\U{0300}']
    case 'á' => ['a', '\U{0301}']
    case 'â' => ['a', '\U{0302}']
    case 'ã' => ['a', '\U{0303}']
    case 'ä' => ['a', '\U{0308}']
    case 'å' => ['a', '\U{030A}']
    case 'ç' => ['c', '\U{0327}']
    case 'è' => ['e', '\U{0300}']
    case 'é' => ['e', '\U{0301}']
    case 'ê' => ['e', '\U{0302}']
    case 'ë' => ['e', '\U{0308}']
    case 'ì' => ['i', '\U{0300}']
    case 'í' => ['i', '\U{0301}']
    case 'î' => ['i', '\U{0302}']
    case 'ï' => ['i', '\U{0308}']
    case 'ñ' => ['n', '\U{0303}']
    case 'ò' => ['o', '\U{0300}']
    case 'ó' => ['o', '\U{0301}']
    case 'ô' => ['o', '\U{0302}']
    case 'õ' => ['o', '\U{0303}']
    case 'ö' => ['o', '\U{0308}']
    case 'ù' => ['u', '\U{0300}']
    case 'ú' => ['u', '\U{0301}']
    case 'û' => ['u', '\U{0302}']
    case 'ü' => ['u', '\U{0308}']
    case 'ý' => ['y', '\U{0301}']
    case 'ÿ' => ['y', '\U{0308}']
    case _ => [c]
  }

  /** `normalize("NFD")`: each character becomes one or two; NfdKeepsAscii
      shows that a text below U+00C0 has nothing to decompose. */
  function Nfd(s: string): (r: string)
    ensures |s| <= |r| <= 2 * |s|
  {
    if s == [] then [] else Decompose(s[0]) + Nfd(s[1..])
  }

  lemma {:induction false} NfdKeepsAscii(s: string)
    requires forall i :: 0 <= i < |s| ==> s[i] as int < 0xC0
    ensures Nfd(s) == s
  {
    if s != [] {
      NfdKeepsAscii(s[1..]);
    }
  }

  /** `replace(/[\u0300-\u036f]/g, "")`: keeps every other character, in order. */
  function StripMarks(s: string): (r: string)
    ensures |r| <= |s|
    ensures forall i :: 0 <= i < |r| ==> !IsCombiningMark(r[i])
  {
    if s == [] then []
    else if IsCombiningMark(s[0]) then StripMarks(s[1..])
    else [s[0]] + StripMarks(s[1..])
  }

  /** Stripping keeps exactly the characters outside U+0300..U+036F: it
      never adds a character, never leaves a mark, and changes a text
      without marks not at all. */
  lemma {:induction false} StripMarksKeeps(s: string)
    ensures forall x :: x in StripMarks(s) ==> x in s && !IsCombiningMark(x)
    ensures (forall x :: x in s ==> !IsCombiningMark(x)) ==> StripMarks(s) == s
  {
    if s != [] {
      StripMarksKeeps(s[1..]);
      assert forall x :: x in s[1..] ==> x in s;
    }
  }

  /** `replace(/[^\w\s]/g, " ")`: a character is kept exactly when it is a
      word character or whitespace, and every other one becomes a blank. */
  function PunctuationToSpace(s: string): (r: string)
    ensures |r| == |s|
    ensures forall i :: 0 <= i < |s| ==> (r[i] == s[i] <==> IsWordChar(s[i]) || IsSpace(s[i]))
    ensures forall i :: 0 <= i < |s| ==> r[i] == s[i] || r[i] == ' '
  {
    seq(|s|, i requires 0 <= i < |s| => if IsWordChar(s[i]) || IsSpace(s[i]) then s[i] else ' ')
  }

  /** Removes the run of whitespace at the front: what is left starts with
      no whitespace, and DropSpacesIsSuffix shows it is a suffix. */
  function DropSpaces(s: string): (r: string)
    ensures |r| <= |s|
    ensures r == [] || !IsSpace(r[0])
  {
    if s != [] && IsSpace(s[0]) then DropSpaces(s[1..]) else s
  }

  /** What DropSpaces leaves is a suffix of its input. */
  lemma {:induction false} DropSpacesIsSuffix(s: string)
    ensures DropSpaces(s) == s[|s| - |DropSpaces(s)|..]
  {
    if s != [] && IsSpace(s[0]) {
      DropSpacesIsSuffix(s[1..]);
    }
  }

  /** Only whitespace is dropped from the front. */
  lemma {:induction false} DropSpacesDropsOnlySpaces(s: string)
    ensures forall i :: 0 <= i < |s| - |DropSpaces(s)| ==> IsSpace(s[i])
  {
    if s != [] && IsSpace(s[0]) {
      DropSpacesDropsOnlySpaces(s[1..]);
    }
  }

  /** `replace(/\s+/g, " ")`: each maximal run of whitespace becomes one
      space. The result is no longer than the input, empty exactly when the
      input is, and starts with the input's first character, or a space for
      leading whitespace. */
  function CollapseSpaces(s: string): (r: string)
    ensures |r| <= |s|
    ensures r == [] <==> s == []
    ensures s != [] ==> r[0] == if IsSpace(s[0]) then ' ' else s[0]
    decreases |s|
  {
    if s == [] then []
    else if IsSpace(s[0]) then [' '] + CollapseSpaces(DropSpaces(s[1..]))
    else [s[0]] + CollapseSpaces(s[1..])
  }

  /** Collapsing keeps every non-whitespace character and writes whitespace as plain spaces. */
  lemma {:induction false} CollapseSpacesChars(s: string)
    ensures forall x :: x in CollapseSpaces(s) ==> x == ' ' || (x in s && !IsSpace(x))
    decreases |s|
  {
    if s != [] {
      var rest := if IsSpace(s[0]) then DropSpaces(s[1..]) else s[1..];
      CollapseSpacesChars(rest);
      assert forall x :: x in rest ==> x in s by {
        if IsSpace(s[0]) {
          DropSpacesIsSuffix(s[1..]);
        }
        assert rest == s[|s| - |rest|..];
      }
    }
  }

  /** A collapsed text never has two spaces in a row. */
  lemma {:induction false} CollapseSpacesSingle(s: string)
    ensures forall i :: 0 <= i < |CollapseSpaces(s)| - 1 ==> CollapseSpaces(s)[i] == ' ' ==> CollapseSpaces(s)[i + 1] != ' '
    decreases |s|
  {
    if s != [] {
      var rest := if IsSpace(s[0]) then DropSpaces(s[1..]) else s[1..];
      var head := if IsSpace(s[0]) then ' ' else s[0];
      CollapseSpacesSingle(rest);
      var tail := CollapseSpaces(rest);
      assert CollapseSpaces(s) == [head] + tail;
      assert head == ' ' ==> tail == [] || tail[0] != ' ';
    }
  }

  /** Dropping leading whitespace from a concatenation: the front run may
      reach into the second part only when the first is all whitespace. */
  lemma {:induction false} DropSpacesAppend(a: string, b: string)
    ensures DropSpaces(a + b) == if DropSpaces(a) == [] then DropSpaces(b) else DropSpaces(a) + b
  {
    if a == [] {
      assert a + b == b;
    } else if IsSpace(a[0]) {
      assert (a + b)[0] == a[0] && (a + b)[1..] == a[1..] + b;
      DropSpacesAppend(a[1..], b);
    }
  }

  /** A string of whitespace only is dropped completely. */
  lemma DropAllSpaces(s: string)
    requires forall i :: 0 <= i < |s| ==> IsSpace(s[i])
    ensures DropSpaces(s) == []
  {
  }

  /** Collapsing works run by run: two texts that do not meet inside a run
      of whitespace collapse separately. */
  lemma {:induction false} CollapseSpacesAppend(a: string, b: string)
    requires a == [] || b == [] || !IsSpace(a[|a| - 1]) || !IsSpace(b[0])
    ensures CollapseSpaces(a + b) == CollapseSpaces(a) + CollapseSpaces(b)
    decreases |a|, 1
  {
    if a == [] {
      assert a + b == b;
    } else if b == [] {
      assert a + b == a;
    } else if IsSpace(a[0]) && DropSpaces(a[1..]) == [] {
      CollapseBlankAppend(a, b);
    } else if IsSpace(a[0]) {
      CollapseRunAppend(a, b);
    } else {
      CollapseCharAppend(a, b);
    }
  }

  /** CollapseSpacesAppend when the first text starts with a character that
      is kept: it stays in front, and the rest is collapsed with the second. */
  lemma {:induction false} CollapseCharAppend(a: string, b: string)
    requires a != [] && b != [] && !IsSpace(a[0])
    requires !IsSpace(a[|a| - 1]) || !IsSpace(b[0])
    ensures CollapseSpaces(a + b) == CollapseSpaces(a) + CollapseSpaces(b)
    decreases |a|, 0
  {
    assert (a + b)[0] == a[0] && (a + b)[1..] == a[1..] + b;
    assert |a| > 1 ==> a[1..][|a| - 2] == a[|a| - 1];
    CollapseSpacesAppend(a[1..], b);
    calc {
      CollapseSpaces(a + b);
      [a[0]] + CollapseSpaces(a[1..] + b);
      [a[0]] + (CollapseSpaces(a[1..]) + CollapseSpaces(b));
      ([a[0]] + CollapseSpaces(a[1..])) + CollapseSpaces(b);
    }
  }

  /** CollapseSpacesAppend when the first text starts with whitespace and
      has more than whitespace: the leading run collapses on its own, and
      the rest of the first text is appended to the second. */
  lemma {:induction false} CollapseRunAppend(a: string, b: string)
    requires a != [] && b != [] && IsSpace(a[0]) && DropSpaces(a[1..]) != []
    requires !IsSpace(a[|a| - 1]) || !IsSpace(b[0])
    ensures CollapseSpaces(a + b) == CollapseSpaces(a) + CollapseSpaces(b)
    decreases |a|, 0
  {
    var d := DropSpaces(a[1..]);
    assert (a + b)[0] == a[0] && (a + b)[1..] == a[1..] + b;
    DropSpacesAppend(a[1..], b);
    DropSpacesIsSuffix(a[1..]);
    assert d[|d| - 1] == a[|a| - 1];
    CollapseSpacesAppend(d, b);
    calc {
      CollapseSpaces(a + b);
      [' '] + CollapseSpaces(d + b);
      [' '] + (CollapseSpaces(d) + CollapseSpaces(b));
      ([' '] + CollapseSpaces(d)) + CollapseSpaces(b);
      CollapseSpaces(a) + CollapseSpaces(b);
    }
  }

  /** CollapseSpacesAppend when the first text is whitespace only. */
  lemma CollapseBlankAppend(a: string, b: string)
    requires a != [] && IsSpace(a[0]) && DropSpaces(a[1..]) == []
    requires b == [] || !IsSpace(a[|a| - 1]) || !IsSpace(b[0])
    ensures CollapseSpaces(a + b) == CollapseSpaces(a) + CollapseSpaces(b)
  {
    assert forall i :: 0 <= i < |a| ==> IsSpace(a[i]) by {
      DropSpacesDropsOnlySpaces(a[1..]);
      assert forall i :: 1 <= i < |a| ==> a[i] == a[1..][i - 1];
    }
    CollapseRunThen(a, b);
    CollapseAllSpaces(a);
  }

  /** A run of whitespace followed by a text that starts with no whitespace:
      the run becomes one blank in front of the collapsed text. */
  lemma CollapseRunThen(a: string, b: string)
    requires a != [] && forall i :: 0 <= i < |a| ==> IsSpace(a[i])
    requires b == [] || !IsSpace(b[0])
    ensures CollapseSpaces(a + b) == [' '] + CollapseSpaces(b)
  {
    assert (a + b)[0] == a[0] && (a + b)[1..] == a[1..] + b;
    DropAllSpaces(a[1..]);
    DropSpacesAppend(a[1..], b);
  }

  /** A run of whitespace alone collapses to one blank. */
  lemma CollapseAllSpaces(s: string)
    requires s != [] && forall i :: 0 <= i < |s| ==> IsSpace(s[i])
    ensures CollapseSpaces(s) == [' ']
  {
    DropAllSpaces(s[1..]);
  }

  /** A character that is not whitespace collapses to itself. */
  lemma CollapseNonSpace(c: char)
    requires !IsSpace(c)
    ensures CollapseSpaces([c]) == [c]
  {
    assert [c][1..] == [];
  }

  /** Removes the run of whitespace at the end: what is left is a prefix that ends with no whitespace. */
  function DropTrailingSpaces(s: string): (r: string)
    ensures |r| <= |s| && r == s[..|r|]
    ensures r == [] || !IsSpace(r[|r| - 1])
  {
    if s != [] && IsSpace(s[|s| - 1]) then DropTrailingSpaces(s[..|s| - 1]) else s
  }

  /** Only whitespace is dropped from the end. */
  lemma {:induction false} DropTrailingSpacesDropsOnlySpaces(s: string)
    ensures forall i :: |DropTrailingSpaces(s)| <= i < |s| ==> IsSpace(s[i])
  {
    if s != [] && IsSpace(s[|s| - 1]) {
      DropTrailingSpacesDropsOnlySpaces(s[..|s| - 1]);
    }
  }

  /** `trim()`: the result neither starts nor ends with whitespace, and it
      is empty exactly when the input is all whitespace. */
  function Trim(s: string): (r: string)
    ensures |r| <= |s|
    ensures r == [] || (!IsSpace(r[0]) && !IsSpace(r[|r| - 1]))
    ensures r == [] <==> forall i :: 0 <= i < |s| ==> IsSpace(s[i])
  {
    TrimEmptyIff(s);
    var front := DropSpaces(s);
    var r := DropTrailingSpaces(front);
    assert r != [] ==> r[0] == front[0];
    r
  }

  /** Trimming both ends leaves nothing exactly when every character is whitespace. */
  lemma TrimEmptyIff(s: string)
    ensures DropTrailingSpaces(DropSpaces(s)) == [] <==> forall i :: 0 <= i < |s| ==> IsSpace(s[i])
  {
    var front := DropSpaces(s);
    var k := |s| - |front|;
    DropSpacesDropsOnlySpaces(s);
    if DropTrailingSpaces(front) == [] {
      DropTrailingSpacesDropsOnlySpaces(front);
      assert front == [];
    } else {
      DropSpacesIsSuffix(s);
      assert s[k] == front[0];
    }
  }

  /** The first three steps: lower-case, decompose, strip the marks. */
  function Fold(s: string): string {
    StripMarks(Nfd(ToLower(s)))
  }

  /** normalizeText (index.js:202-210). Whatever the input, the output has
      only lower-case ASCII letters, digits, `_` and single spaces, with no
      space at either end. */
  function Normalize(s: string): (r: string)
    ensures IsNormalized(r)
  {
    var spaced := PunctuationToSpace(Fold(s));
    var collapsed := CollapseSpaces(spaced);
    assert forall i :: 0 <= i < |collapsed| ==> IsNormalChar(collapsed[i]) by {
      FoldedHasNoCapital(s);
      PunctuationToSpaceChars(Fold(s));
      CollapseSpacesChars(spaced);
      forall i | 0 <= i < |collapsed| ensures IsNormalChar(collapsed[i]) {
        assert collapsed[i] in collapsed;
      }
    }
    CollapseSpacesSingle(spaced);
    TrimOfCollapsedIsNormalized(collapsed);
    Trim(collapsed)
  }

  /** What normalisation produces: only lower-case ASCII letters, digits,
      `_` and single spaces, with no space at either end. */
  predicate IsNormalized(s: string) {
    && (forall i :: 0 <= i < |s| ==> IsNormalChar(s[i]))
    && (|s| > 0 ==> s[0] != ' ' && s[|s| - 1] != ' ')
    && (forall i :: 0 <= i < |s| - 1 ==> s[i] == ' ' ==> s[i + 1] != ' ')
  }

  // ---------------------------------------------------------------------
  // What normalisation guarantees
  // ---------------------------------------------------------------------

  /** After lower-casing, decomposition yields no ASCII capital: every
      precomposed capital was lowered before it was split. */
  lemma {:induction false} NfdOfLoweredHasNoCapital(s: string)
    requires forall c :: c in s ==> !IsCapital(c)
    ensures forall x :: x in Nfd(s) ==> !IsAsciiUpper(x)
  {
    if s != [] {
      assert forall c :: c in s[1..] ==> c in s;
      NfdOfLoweredHasNoCapital(s[1..]);
    }
  }

  /** Lower-casing, decomposing and stripping marks leave no ASCII capital. */
  lemma FoldedHasNoCapital(s: string)
    ensures forall x :: x in Fold(s) ==> !IsAsciiUpper(x)
  {
    var lowered := ToLower(s);
    assert forall c :: c in lowered ==> !IsCapital(c);
    NfdOfLoweredHasNoCapital(lowered);
    StripMarksKeeps(Nfd(lowered));
  }

  /** Without ASCII capitals, `[^\w\s]` replacement leaves only normal characters and whitespace. */
  lemma PunctuationToSpaceChars(s: string)
    requires forall x :: x in s ==> !IsAsciiUpper(x)
    ensures forall x :: x in PunctuationToSpace(s) ==> IsNormalChar(x) || IsSpace(x)
  {
    var r := PunctuationToSpace(s);
    forall x | x in r ensures IsNormalChar(x) || IsSpace(x) {
      var i :| 0 <= i < |r| && r[i] == x;
      assert s[i] in s;
    }
  }

  /** `trim()` returns the slice of its input from `k` on that neither starts nor ends with whitespace. */
  lemma TrimIsInnerSlice(q: string) returns (k: nat, m: nat)
    ensures k <= m <= |q| && Trim(q) == q[k..m]
    ensures k < m ==> !IsSpace(q[k]) && !IsSpace(q[m - 1])
  {
    var front := DropSpaces(q);
    var t := DropTrailingSpaces(front);
    k := |q| - |front|;
    m := k + |t|;
    DropSpacesIsSuffix(q);
    assert front == q[k..];
    assert t == front[..|t|];
  }

  /** A slice of a single-spaced text of normal characters that starts and
      ends with a non-blank is normalised. */
  lemma InnerSliceIsNormalized(q: string, k: nat, m: nat)
    requires k <= m <= |q|
    requires forall i :: 0 <= i < |q| ==> IsNormalChar(q[i])
    requires forall i :: 0 <= i < |q| - 1 ==> q[i] == ' ' ==> q[i + 1] != ' '
    requires k < m ==> q[k] != ' ' && q[m - 1] != ' '
    ensures IsNormalized(q[k..m])
  {
    var t := q[k..m];
    forall i | 0 <= i < |t| ensures IsNormalChar(t[i]) {
      assert t[i] == q[k + i];
    }
    forall i | 0 <= i < |t| - 1 ensures t[i] == ' ' ==> t[i + 1] != ' ' {
      assert t[i] == q[k + i] && t[i + 1] == q[k + i + 1];
    }
  }

  /** Trimming a collapsed text of normal characters gives a normalised text. */
  lemma TrimOfCollapsedIsNormalized(q: string)
    requires forall i :: 0 <= i < |q| ==> IsNormalChar(q[i])
    requires forall i :: 0 <= i < |q| - 1 ==> q[i] == ' ' ==> q[i + 1] != ' '
    ensures IsNormalized(Trim(q))
  {
    var k, m := TrimIsInnerSlice(q);
    assert IsSpace(' ');
    InnerSliceIsNormalized(q, k, m);
  }

  /** A text with single spaces only and no other whitespace is its own collapse. */
  lemma {:induction false} CollapseKeepsSingleSpaces(s: string)
    requires forall i :: 0 <= i < |s| ==> IsNormalChar(s[i])
    requires forall i :: 0 <= i < |s| - 1 ==> s[i] == ' ' ==> s[i + 1] != ' '
    ensures CollapseSpaces(s) == s
    decreases |s|
  {
    if s != [] {
      var t := s[1..];
      forall i | 0 <= i < |t|
        ensures IsNormalChar(t[i]) && (i < |t| - 1 ==> t[i] == ' ' ==> t[i + 1] != ' ')
      {
        assert t[i] == s[i + 1];
        assert i < |t| - 1 ==> t[i + 1] == s[i + 2];
      }
      CollapseKeepsSingleSpaces(t);
      NormalSpaceIsBlank(s[0]);
      if s[0] == ' ' {
        if t != [] {
          NormalSpaceIsBlank(t[0]);
        }
        assert DropSpaces(t) == t;
      }
      assert s == [s[0]] + t;
    }
  }

  /** The one whitespace character a normalised text may hold is the blank. */
  lemma NormalSpaceIsBlank(c: char)
    requires IsNormalChar(c)
    ensures IsSpace(c) <==> c == ' '
  {
  }

  lemma LowerAndReplaceKeepNormalChars(s: string)
    requires forall i :: 0 <= i < |s| ==> IsNormalChar(s[i])
    ensures ToLower(s) == s && PunctuationToSpace(s) == s
  {
  }

  /** Folding leaves digits, lower-case ASCII letters, `_` and spaces alone. */
  lemma FoldKeepsNormalChars(s: string)
    requires forall i :: 0 <= i < |s| ==> IsNormalChar(s[i])
    ensures Fold(s) == s
  {
    LowerAndReplaceKeepNormalChars(s);
    NfdKeepsAscii(s);
    assert StripMarks(s) == s by {
      forall x | x in s ensures !IsCombiningMark(x) {
        var i :| 0 <= i < |s| && s[i] == x;
      }
      StripMarksKeeps(s);
    }
  }

  /** The last three steps leave a normalised text alone. */
  lemma SpacingKeepsNormalized(s: string)
    requires IsNormalized(s)
    ensures Trim(CollapseSpaces(PunctuationToSpace(s))) == s
  {
    LowerAndReplaceKeepNormalChars(s);
    CollapseKeepsSingleSpaces(s);
    if s != [] {
      NormalSpaceIsBlank(s[0]);
      NormalSpaceIsBlank(s[|s| - 1]);
    }
    assert DropSpaces(s) == s;
    assert DropTrailingSpaces(s) == s;
  }

  lemma NormalizeKeepsNormalized(s: string)
    requires IsNormalized(s)
    ensures Normalize(s) == s
  {
    FoldKeepsNormalChars(s);
    SpacingKeepsNormalized(s);
  }

  lemma NfdCons(a: string, b: string)
    requires a != []
    ensures Nfd(a + b) == Decompose(a[0]) + Nfd(a[1..] + b)
  {
    assert (a + b)[0] == a[0] && (a + b)[1..] == a[1..] + b;
  }

  lemma {:induction false} NfdAppend(a: string, b: string)
    ensures Nfd(a + b) == Nfd(a) + Nfd(b)
  {
    if a != [] {
      NfdCons(a, b);
      NfdAppend(a[1..], b);
      var d := Decompose(a[0]);
      assert d + (Nfd(a[1..]) + Nfd(b)) == d + Nfd(a[1..]) + Nfd(b);
    } else {
      assert a + b == b;
    }
  }

  lemma {:induction false} StripMarksAppend(a: string, b: string)
    ensures StripMarks(a + b) == StripMarks(a) + StripMarks(b)
  {
    if a != [] {
      assert (a + b)[0] == a[0] && (a + b)[1..] == a[1..] + b;
      StripMarksAppend(a[1..], b);
      if !IsCombiningMark(a[0]) {
        assert [a[0]] + StripMarks(a[1..]) + StripMarks(b) == [a[0]] + (StripMarks(a[1..]) + StripMarks(b));
      }
    } else {
      assert a + b == b;
    }
  }

  /** Folding works character by character, so it distributes over concatenation. */
  lemma FoldAppend(a: string, b: string)
    ensures Fold(a + b) == Fold(a) + Fold(b)
  {
    assert ToLower(a + b) == ToLower(a) + ToLower(b);
    NfdAppend(ToLower(a), ToLower(b));
    StripMarksAppend(Nfd(ToLower(a)), Nfd(ToLower(b)));
  }

  /** `[^\w\s]` replacement works character by character. */
  lemma PunctuationToSpaceAppend(a: string, b: string)
    ensures PunctuationToSpace(a + b) == PunctuationToSpace(a) + PunctuationToSpace(b)
  {
    var l := PunctuationToSpace(a + b);
    var r := PunctuationToSpace(a) + PunctuationToSpace(b);
    forall i | 0 <= i < |l| ensures l[i] == r[i] {
      if i >= |a| {
        assert (a + b)[i] == b[i - |a|];
      } else {
        assert (a + b)[i] == a[i];
      }
    }
  }

  /** Dropping leading whitespace keeps every stretch that starts with a
      non-blank; `k` is where it lands. */
  lemma {:induction false} DropSpacesKeepsSlice(q: string, p: nat, n: nat) returns (k: nat)
    requires p < |q| && p + n <= |q| && !IsSpace(q[p])
    ensures k + n <= |DropSpaces(q)| && DropSpaces(q)[k..k + n] == q[p..p + n]
  {
    if IsSpace(q[0]) {
      assert q[1..][p - 1] == q[p];
      k := DropSpacesKeepsSlice(q[1..], p - 1, n);
      assert q[1..][p - 1..p - 1 + n] == q[p..p + n];
    } else {
      k := p;
    }
  }

  /** Dropping trailing whitespace keeps every stretch that ends with a non-blank, in place. */
  lemma {:induction false} DropTrailingSpacesKeepsSlice(q: string, p: nat, n: nat)
    requires 0 < n && p + n <= |q| && !IsSpace(q[p + n - 1])
    ensures p + n <= |DropTrailingSpaces(q)| && DropTrailingSpaces(q)[p..p + n] == q[p..p + n]
  {
    if IsSpace(q[|q| - 1]) {
      var front := q[..|q| - 1];
      assert front[p + n - 1] == q[p + n - 1];
      DropTrailingSpacesKeepsSlice(front, p, n);
      assert front[p..p + n] == q[p..p + n];
    }
  }

  /** `trim()` keeps every stretch of its input that starts and ends with a
      non-blank; `k` is where that stretch lands in the result. */
  lemma TrimKeepsInner(q: string, p: nat, n: nat) returns (k: nat)
    requires 0 < n && p + n <= |q| && !IsSpace(q[p]) && !IsSpace(q[p + n - 1])
    ensures k + n <= |Trim(q)| && Trim(q)[k..k + n] == q[p..p + n]
  {
    var front := DropSpaces(q);
    k := DropSpacesKeepsSlice(q, p, n);
    assert front[k + n - 1] == front[k..k + n][n - 1] == q[p + n - 1];
    DropTrailingSpacesKeepsSlice(front, k, n);
    assert Trim(q) == DropTrailingSpaces(front);
  }

  /** `trim()` keeps a normalised word inside its input. */
  lemma TrimKeepsWord(q: string, p: nat, w: string) returns (k: nat)
    requires w != [] && IsNormalized(w) && p + |w| <= |q| && q[p..p + |w|] == w
    ensures k + |w| <= |Trim(q)| && Trim(q)[k..k + |w|] == w
  {
    NormalizedEndsNotBlank(w);
    assert q[p] == w[0] && q[p + |w| - 1] == w[|w| - 1];
    k := TrimKeepsInner(q, p, |w|);
  }

  /** A non-empty normalised text neither starts nor ends with whitespace of any kind. */
  lemma NormalizedEndsNotBlank(w: string)
    requires w != [] && IsNormalized(w)
    ensures !IsSpace(w[0]) && !IsSpace(w[|w| - 1])
  {
    NormalSpaceIsBlank(w[0]);
    NormalSpaceIsBlank(w[|w| - 1]);
  }

  /** Collapsing leaves a normalised word at the front alone. */
  lemma CollapseWordThen(w: string, back: string)
    requires w != [] && IsNormalized(w)
    ensures (w + back)[0] == w[0]
    ensures CollapseSpaces(w + back) == w + CollapseSpaces(back)
  {
    NormalizedEndsNotBlank(w);
    CollapseSpacesAppend(w, back);
    CollapseKeepsSingleSpaces(w);
  }

  /** Collapsing leaves a normalised word alone and collapses what
      surrounds it separately. */
  lemma CollapseAround(front: string, w: string, back: string)
    requires w != [] && IsNormalized(w)
    ensures CollapseSpaces(front + (w + back)) == CollapseSpaces(front) + w + CollapseSpaces(back)
  {
    NormalizedEndsNotBlank(w);
    CollapseWordThen(w, back);
    var wb := w + back;
    assert wb[0] == w[0];
    CollapseSpacesAppend(front, wb);
    var f := CollapseSpaces(front);
    var c := CollapseSpaces(back);
    assert f + (w + c) == f + w + c;
  }

  /** Collapsing and trimming keep a normalised word whatever surrounds it;
      `k` is where it lands. */
  lemma SpacingKeepsWord(n: string, front: string, w: string, back: string) returns (k: nat)
    requires w != [] && IsNormalized(w) && n == Trim(CollapseSpaces(front + (w + back)))
    ensures k + |w| <= |n| && n[k..k + |w|] == w
  {
    CollapseAround(front, w, back);
    var before := CollapseSpaces(front);
    var collapsed := before + w + CollapseSpaces(back);
    assert collapsed[|before|..|before| + |w|] == w;
    k := TrimKeepsWord(collapsed, |before|, w);
  }

  /** Folding and `[^\w\s]` replacement leave a folded word that is already
      normalised as it is, between the replaced surroundings. */
  lemma SpacedAround(x: string, v: string, y: string)
    requires IsNormalized(Fold(v))
    ensures PunctuationToSpace(Fold(x + v + y))
      == PunctuationToSpace(Fold(x)) + (Fold(v) + PunctuationToSpace(Fold(y)))
  {
    FoldAppend3(x, v, y);
    PunctuationAround(Fold(x), Fold(v), Fold(y));
  }

  lemma FoldAppend3(x: string, v: string, y: string)
    ensures Fold(x + v + y) == Fold(x) + Fold(v) + Fold(y)
  {
    FoldAppend(x, v);
    FoldAppend(x + v, y);
  }

  /** `[^\w\s]` replacement leaves a normalised word alone. */
  lemma PunctuationAround(a: string, w: string, b: string)
    requires IsNormalized(w)
    ensures PunctuationToSpace(a + w + b) == PunctuationToSpace(a) + (w + PunctuationToSpace(b))
  {
    LowerAndReplaceKeepNormalChars(w);
    PunctuationToSpaceAppend(a + w, b);
    PunctuationToSpaceAppend(a, w);
    var pa, pb := PunctuationToSpace(a), PunctuationToSpace(b);
    assert pa + w + pb == pa + (w + pb);
  }

  /** normalizeText is the method chain, one call after the other. */
  lemma NormalizeSteps(s: string)
    ensures Normalize(s) == Trim(CollapseSpaces(PunctuationToSpace(Fold(s))))
  {
  }

  /** normalizeText on a text with a folded-normalised word inside: the
      surroundings are folded and replaced on their own. */
  lemma NormalizeAround(x: string, v: string, y: string)
    requires IsNormalized(Fold(v))
    ensures Normalize(x + v + y)
      == Trim(CollapseSpaces(PunctuationToSpace(Fold(x)) + (Fold(v) + PunctuationToSpace(Fold(y)))))
  {
    SpacedAround(x, v, y);
    NormalizeSteps(x + v + y);
  }

  /** normalizeText keeps a word wherever it stands: if `v` folds to a
      normalised, non-empty `w`, then `w` appears in the normalisation of any
      text that has `v` inside, whatever surrounds it. */
  lemma NormalizeKeepsWord(x: string, v: string, y: string) returns (k: nat)
    requires Fold(v) != [] && IsNormalized(Fold(v))
    ensures k + |Fold(v)| <= |Normalize(x + v + y)|
    ensures Normalize(x + v + y)[k..k + |Fold(v)|] == Fold(v)
  {
    k := WordInNormalized(x, v, y, Normalize(x + v + y), Fold(v));
  }

  lemma WordInNormalized(x: string, v: string, y: string, n: string, w: string) returns (k: nat)
    requires w == Fold(v) && w != [] && IsNormalized(w) && n == Normalize(x + v + y)
    ensures k + |w| <= |n| && n[k..k + |w|] == w
  {
    NormalizeAround(x, v, y);
    k := SpacingKeepsWord(n, PunctuationToSpace(Fold(x)), w, PunctuationToSpace(Fold(y)));
  }

  /** Normalised texts are exactly the fixed points of normalizeText. */
  lemma NormalizeFixedPoints(s: string)
    ensures Normalize(s) == s <==> IsNormalized(s)
  {
    if IsNormalized(s) {
      NormalizeKeepsNormalized(s);
    }
  }

  /** Applying normalizeText twice equals applying it once. */
  lemma NormalizeIdempotent(s: string)
    ensures Normalize(Normalize(s)) == Normalize(s)
  {
    NormalizeFixedPoints(Normalize(s));
  }
}
