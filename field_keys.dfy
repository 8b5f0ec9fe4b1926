/**
 * The pure helpers of the card-type editor
 * (src/components/card-types/create-card-type-modal.tsx): the key derived
 * from a field label, and the one-option-per-line text of select fields.
 */
module FieldKeys {
  import opened Text
  import opened Seqs

  predicate IsLowerAlnum(c: char)
  {
    'a' <= c <= 'z' || '0' <= c <= '9'
  }

  predicate IsKeyChar(c: char)
  {
    IsLowerAlnum(c) || c == '_'
  }

  predicate NoDoubleUnderscore(s: string)
  {
    forall i | 0 <= i < |s| - 1 :: !(s[i] == '_' && s[i + 1] == '_')
  }

  /** The key pattern `^[a-z][a-z0-9_]*$` the key input demands. */
  predicate MatchesKeyPattern(s: string)
  {
    s != [] && 'a' <= s[0] <= 'z' && forall i | 0 <= i < |s| :: IsKeyChar(s[i])
  }

  /** The characters `[a-z0-9\s]` the strip step keeps. */
  predicate KeptByStrip(c: char)
  {
    IsLowerAlnum(c) || IsJsSpace(c)
  }

  /** `.replace(/[^a-z0-9\s]/g, '')` */
  function StripDisallowed(s: string): (r: string)
    ensures forall i | 0 <= i < |r| :: IsLowerAlnum(r[i]) || IsJsSpace(r[i])
  {
    var r := Filter(s, KeptByStrip);
    assert forall i | 0 <= i < |r| :: r[i] in r;
    r
  }

  /** Drops the rest of a run of white space. */
  function DropSpaces(s: string): (r: string)
    ensures |r| <= |s|
  {
    if s != [] && IsJsSpace(s[0]) then DropSpaces(s[1..]) else s
  }

  /** What is left is a suffix that does not start with white space. */
  lemma {:induction false} DropSpacesSuffix(s: string)
    ensures var r := DropSpaces(s);
      |r| <= |s| && r == s[|s| - |r|..] && (r == [] || !IsJsSpace(r[0])) && AllSpace(s[..|s| - |r|])
  {
    if s != [] && IsJsSpace(s[0]) {
      DropSpacesSuffix(s[1..]);
    }
  }

  /** `.replace(/\s+/g, '_')`: every maximal run of white space becomes one underscore. */
  function UnderscoreSpaces(s: string): (r: string)
    ensures |r| <= |s|
    decreases |s|
  {
    if s == [] then []
    else if IsJsSpace(s[0]) then ['_'] + UnderscoreSpaces(DropSpaces(s[1..]))
    else [s[0]] + UnderscoreSpaces(s[1..])
  }

  /** The result keeps the other characters and adds only underscores. */
  lemma {:induction false} UnderscoreSpacesChars(s: string)
    ensures var r := UnderscoreSpaces(s);
      forall i | 0 <= i < |r| :: r[i] == '_' || (r[i] in s && !IsJsSpace(r[i]))
    decreases |s|
  {
    if s != [] {
      var r := UnderscoreSpaces(s);
      var t := if IsJsSpace(s[0]) then DropSpaces(s[1..]) else s[1..];
      DropSpacesSuffix(s[1..]);
      UnderscoreSpacesChars(t);
      assert forall c | c in t :: c in s;
      assert r[1..] == UnderscoreSpaces(t);
      forall i | 1 <= i < |r|
        ensures r[i] == '_' || (r[i] in s && !IsJsSpace(r[i]))
      {
        assert r[i] == UnderscoreSpaces(t)[i - 1];
      }
    }
  }

  lemma UnderscoreSpacesCharAt(s: string, i: int)
    requires 0 <= i < |UnderscoreSpaces(s)|
    ensures var c := UnderscoreSpaces(s)[i]; c == '_' || (c in s && !IsJsSpace(c))
  {
    UnderscoreSpacesChars(s);
  }

  /** The result is empty only for the empty input, and starts with '_' exactly when the input starts with a space or '_'. */
  lemma UnderscoreSpacesFirst(s: string)
    ensures var r := UnderscoreSpaces(s);
      && (r == [] <==> s == [])
      && (s != [] ==> (r[0] == '_' <==> IsJsSpace(s[0]) || s[0] == '_'))
  {
  }

  /** Without underscores in the input no two underscores end up adjacent. */
  lemma {:induction false} UnderscoreSpacesNoDouble(s: string)
    requires '_' !in s
    ensures NoDoubleUnderscore(UnderscoreSpaces(s))
    decreases |s|
  {
    if s != [] {
      var r := UnderscoreSpaces(s);
      var t := if IsJsSpace(s[0]) then DropSpaces(s[1..]) else s[1..];
      DropSpacesSuffix(s[1..]);
      assert forall c | c in t :: c in s;
      UnderscoreSpacesNoDouble(t);
      UnderscoreSpacesFirst(t);
      var rt := UnderscoreSpaces(t);
      assert r == [r[0]] + rt;
      forall i | 0 <= i < |r| - 1
        ensures !(r[i] == '_' && r[i + 1] == '_')
      {
        if i > 0 {
          assert r[i] == rt[i - 1] && r[i + 1] == rt[i];
        }
      }
    }
  }

  /** A character that is neither white space nor an underscore. */
  predicate IsWordChar(c: char)
  {
    !IsJsSpace(c) && c != '_'
  }

  predicate NotUnderscore(c: char)
  {
    c != '_'
  }

  /** Dropping the rest of a run of white space loses no word character. */
  lemma {:induction false} DropSpacesKeepsWords(s: string)
    ensures Filter(DropSpaces(s), IsWordChar) == Filter(s, IsWordChar)
    decreases |s|
  {
    if s != [] && IsJsSpace(s[0]) {
      DropSpacesKeepsWords(s[1..]);
    }
  }

  /**
   * Every character other than white space and '_' is kept, in order:
   * removing the underscores from the result gives the word characters of
   * the input.
   */
  lemma {:induction false} UnderscoreSpacesKeepsWords(s: string)
    ensures Filter(UnderscoreSpaces(s), NotUnderscore) == Filter(s, IsWordChar)
    decreases |s|
  {
    if s != [] {
      var r := UnderscoreSpaces(s);
      if IsJsSpace(s[0]) {
        var d := DropSpaces(s[1..]);
        UnderscoreSpacesKeepsWords(d);
        DropSpacesKeepsWords(s[1..]);
        assert r == ['_'] + UnderscoreSpaces(d);
        assert r[1..] == UnderscoreSpaces(d);
      } else {
        UnderscoreSpacesKeepsWords(s[1..]);
        assert r[1..] == UnderscoreSpaces(s[1..]);
        assert NotUnderscore(s[0]) == IsWordChar(s[0]);
      }
    }
  }

  /** A run of white space only is dropped whole. */
  lemma {:induction false} DropAllSpace(w: string)
    requires AllSpace(w)
    ensures DropSpaces(w) == []
    decreases |w|
  {
    if w != [] {
      DropAllSpace(w[1..]);
    }
  }

  /** Dropping leading white space stops inside `a` when `a` ends in a non-space character, whatever follows. */
  lemma {:induction false} DropSpacesConcat(a: string, z: string)
    requires a != [] && !IsJsSpace(a[|a| - 1])
    ensures DropSpaces(a + z) == DropSpaces(a) + z
    decreases |a|
  {
    if IsJsSpace(a[0]) {
      assert (a + z)[1..] == a[1..] + z;
      DropSpacesConcat(a[1..], z);
    }
  }

  /** Dropping leading white space from a run followed by a word character leaves the rest. */
  lemma {:induction false} DropSpacesBeforeWord(w: string, y: string)
    requires AllSpace(w) && (y == [] || !IsJsSpace(y[0]))
    ensures DropSpaces(w + y) == y
    decreases |w|
  {
    if w != [] {
      assert (w + y)[1..] == w[1..] + y;
      DropSpacesBeforeWord(w[1..], y);
    }
  }

  /** A string ending in a non-space character keeps that last character. */
  lemma {:induction false} DropSpacesKeepsLast(a: string)
    requires a != [] && !IsJsSpace(a[|a| - 1])
    ensures DropSpaces(a) != [] && DropSpaces(a)[|DropSpaces(a)| - 1] == a[|a| - 1]
    decreases |a|
  {
    if IsJsSpace(a[0]) {
      DropSpacesKeepsLast(a[1..]);
    }
  }

  /** A leading run of white space followed by a word character becomes one '_'. */
  lemma LeadingRun(w: string, y: string)
    requires w != [] && AllSpace(w)
    requires y == [] || !IsJsSpace(y[0])
    ensures UnderscoreSpaces(w + y) == ['_'] + UnderscoreSpaces(y)
  {
    assert (w + y)[1..] == w[1..] + y;
    DropSpacesBeforeWord(w[1..], y);
  }

  /** A leading word character is copied. */
  lemma LeadingWord(c: char, z: string)
    requires !IsJsSpace(c)
    ensures UnderscoreSpaces([c] + z) == [c] + UnderscoreSpaces(z)
  {
    assert ([c] + z)[1..] == z;
  }

  /** A leading word character is copied, before the run as well as on its own. */
  lemma WordHeadStep(c: char, t: string, w: string, y: string)
    requires !IsJsSpace(c)
    requires UnderscoreSpaces(t + w + y) == UnderscoreSpaces(t) + ['_'] + UnderscoreSpaces(y)
    ensures UnderscoreSpaces([c] + t + w + y) == UnderscoreSpaces([c] + t) + ['_'] + UnderscoreSpaces(y)
  {
    LeadingWord(c, t + w + y);
    LeadingWord(c, t);
    Regroup([c], t, w, y);
    Regroup([c], UnderscoreSpaces(t), ['_'], UnderscoreSpaces(y));
  }

  /** A leading white-space character becomes '_' and the rest of its run is dropped. */
  lemma LeadingSpace(c: char, z: string)
    requires IsJsSpace(c)
    ensures UnderscoreSpaces([c] + z) == ['_'] + UnderscoreSpaces(DropSpaces(z))
  {
    assert ([c] + z)[1..] == z;
  }

  /** A leading run of white space inside `[c] + a` is dropped up to the next word character of `a`. */
  lemma SpaceHeadStep(c: char, a: string, w: string, y: string)
    requires IsJsSpace(c) && a != [] && !IsJsSpace(a[|a| - 1])
    requires var d := DropSpaces(a);
      UnderscoreSpaces(d + w + y) == UnderscoreSpaces(d) + ['_'] + UnderscoreSpaces(y)
    ensures UnderscoreSpaces([c] + a + w + y) == UnderscoreSpaces([c] + a) + ['_'] + UnderscoreSpaces(y)
  {
    var d := DropSpaces(a);
    calc {
      UnderscoreSpaces([c] + a + w + y);
      { Regroup([c], a, w, y); }
      UnderscoreSpaces([c] + (a + w + y));
      { LeadingSpace(c, a + w + y); }
      ['_'] + UnderscoreSpaces(DropSpaces(a + w + y));
      { Regroup3(a, w, y); DropSpacesConcat(a, w + y); Regroup3(d, w, y); }
      ['_'] + UnderscoreSpaces(d + w + y);
      ['_'] + (UnderscoreSpaces(d) + ['_'] + UnderscoreSpaces(y));
      { Regroup(['_'], UnderscoreSpaces(d), ['_'], UnderscoreSpaces(y)); }
      ['_'] + UnderscoreSpaces(d) + ['_'] + UnderscoreSpaces(y);
      { LeadingSpace(c, a); }
      UnderscoreSpaces([c] + a) + ['_'] + UnderscoreSpaces(y);
    }
  }

  /**
   * A maximal run of white space (preceded and followed by a non-space
   * character or by an end of the string) becomes exactly one '_', and the
   * text on each side is processed on its own.
   */
  lemma {:induction false} MaximalRunBecomesOneUnderscore(x: string, w: string, y: string)
    requires x == [] || !IsJsSpace(x[|x| - 1])
    requires w != [] && AllSpace(w)
    requires y == [] || !IsJsSpace(y[0])
    ensures UnderscoreSpaces(x + w + y) == UnderscoreSpaces(x) + ['_'] + UnderscoreSpaces(y)
    decreases |x|
  {
    if x == [] {
      assert x + w + y == w + y;
      LeadingRun(w, y);
    } else if !IsJsSpace(x[0]) {
      MaximalRunBecomesOneUnderscore(x[1..], w, y);
      SplitHead(x);
      WordHeadStep(x[0], x[1..], w, y);
    } else {
      DropSpacesKeepsLast(x[1..]);
      MaximalRunBecomesOneUnderscore(DropSpaces(x[1..]), w, y);
      SplitHead(x);
      SpaceHeadStep(x[0], x[1..], w, y);
    }
  }

  /** `.substring(0, 50)` */
  function Take50(s: string): (r: string)
    ensures |r| <= 50 && |r| <= |s| && r == s[..|r|]
    ensures |s| <= 50 ==> r == s
  {
    if |s| <= 50 then s else s[..50]
  }

  /** `generateFieldKey(fieldLabel)` */
  function GenerateFieldKey(fieldLabel: string): (r: string)
    ensures |r| <= 50
    ensures forall i | 0 <= i < |r| :: IsKeyChar(r[i])
    ensures NoDoubleUnderscore(r)
    // the key is the first 50 characters of the underscored, stripped, lowered label
    ensures var u := UnderscoreSpaces(StripDisallowed(Lower(fieldLabel)));
            |r| <= |u| && r == u[..|r|] && (|r| == 50 || r == u)
  {
    var stripped := StripDisallowed(Lower(fieldLabel));
    KeyShape(stripped);
    Take50(UnderscoreSpaces(stripped))
  }

  /** The two later steps keep the characters of a stripped string inside the key alphabet. */
  lemma KeyShape(stripped: string)
    requires forall i | 0 <= i < |stripped| :: IsLowerAlnum(stripped[i]) || IsJsSpace(stripped[i])
    ensures var r := Take50(UnderscoreSpaces(stripped));
      (forall i | 0 <= i < |r| :: IsKeyChar(r[i])) && NoDoubleUnderscore(r)
  {
    var u := UnderscoreSpaces(stripped);
    var r := Take50(u);
    assert '_' !in stripped;
    UnderscoreSpacesNoDouble(stripped);
    forall i | 0 <= i < |r|
      ensures IsKeyChar(r[i])
    {
      assert r[i] == u[i];
      UnderscoreSpacesCharAt(stripped, i);
      if u[i] != '_' {
        var j :| 0 <= j < |stripped| && stripped[j] == u[i];
      }
    }
    forall i | 0 <= i < |r| - 1
      ensures !(r[i] == '_' && r[i + 1] == '_')
    {
      assert r[i] == u[i] && r[i + 1] == u[i + 1];
    }
  }

  /** A string without white space is left alone by the underscore step. */
  lemma {:induction false} NoSpaceUnchanged(s: string)
    requires forall i | 0 <= i < |s| :: !IsJsSpace(s[i])
    ensures UnderscoreSpaces(s) == s
  {
    if s != [] {
      NoSpaceUnchanged(s[1..]);
    }
  }

  /** The first character of the lowered label survives stripping when it is allowed. */
  lemma StripKeepsFirst(l: string)
    requires l != [] && (IsLowerAlnum(l[0]) || IsJsSpace(l[0]))
    ensures StripDisallowed(l) != [] && StripDisallowed(l)[0] == l[0]
  {
    assert l == [l[0]] + l[1..];
    FilterConcat([l[0]], l[1..], KeptByStrip);
  }

  /**
   * A label whose first character (lowered) is a letter, a digit or white
   * space gets a key starting with that character, white space becoming '_'.
   */
  lemma KeyFirstChar(fieldLabel: string)
    requires fieldLabel != []
    requires IsLowerAlnum(LowerChar(fieldLabel[0])) || IsJsSpace(LowerChar(fieldLabel[0]))
    ensures var key := GenerateFieldKey(fieldLabel);
      var c := LowerChar(fieldLabel[0]);
      key != [] && key[0] == (if IsJsSpace(c) then '_' else c)
  {
    var l := Lower(fieldLabel);
    StripKeepsFirst(l);
    var stripped := StripDisallowed(l);
    UnderscoreSpacesFirst(stripped);
  }

  /** A label that starts with a letter gets a key that satisfies the key pattern. */
  lemma LetterFirstGivesValidKey(fieldLabel: string)
    requires fieldLabel != [] && ('a' <= LowerChar(fieldLabel[0]) <= 'z')
    ensures MatchesKeyPattern(GenerateFieldKey(fieldLabel))
  {
    KeyFirstChar(fieldLabel);
  }

  /**
   * The generated key need not satisfy the key pattern: a label starting
   * with a digit or with white space gets a key starting with a digit or '_'.
   */
  lemma MayBreakKeyPattern(fieldLabel: string)
    requires fieldLabel != [] && (('0' <= fieldLabel[0] <= '9') || IsJsSpace(fieldLabel[0]))
    ensures !MatchesKeyPattern(GenerateFieldKey(fieldLabel))
  {
    KeyFirstChar(fieldLabel);
  }

  /** The key of the label "Full Name!" is "full_name". */
  lemma FullNameExample(given: string, key: string)
    requires given == "Full Name!" && key == "full_name"
    ensures GenerateFieldKey(given) == key
  {
    FullNameSteps(given, "full name!", "full", " ", "name", "!");
    assert "full" + "_" + "name" == key;
  }

  /** The steps of the example, on names rather than literals. */
  lemma FullNameSteps(given: string, lowered: string, x: string, w: string, y: string, tail: string)
    requires given == "Full Name!" && lowered == "full name!"
    requires x == "full" && w == " " && y == "name" && tail == "!"
    ensures GenerateFieldKey(given) == x + "_" + y
  {
    LowerFullName();
    FullNameWords();
    assert lowered == x + w + y + tail;
    StripTwoWords(x, w, y);
    FilterConcat(x + w + y, tail, KeptByStrip);
    assert !KeptByStrip(tail[0]) && tail[1..] == [];
    UnderscoreTwoWords(x, w, y);
    KeyVia(given, lowered, x + w + y, x + "_" + y);
  }

  /** The key computed one step at a time. */
  lemma KeyVia(given: string, lowered: string, stripped: string, key: string)
    requires Lower(given) == lowered && StripDisallowed(lowered) == stripped
    requires UnderscoreSpaces(stripped) == key && |key| <= 50
    ensures GenerateFieldKey(given) == key
  {
  }

  lemma LowerFullName()
    ensures Lower("Full Name!") == "full name!"
  {
    var l := Lower("Full Name!");
    assert LowerChar('F') == 'f' && LowerChar('N') == 'n';
    forall i | 0 <= i < 10
      ensures l[i] == "full name!"[i]
    {
      assert l[i] == LowerChar("Full Name!"[i]);
    }
  }

  lemma FullNameWords()
    ensures TwoWords("full", " ", "name")
  {
  }

  /** Two words of `[a-z0-9]` around a run of lower-case white space. */
  predicate TwoWords(x: string, w: string, y: string)
  {
    && x != [] && (forall i | 0 <= i < |x| :: IsLowerAlnum(x[i]))
    && w != [] && (forall i | 0 <= i < |w| :: IsJsSpace(w[i]) && LowerChar(w[i]) == w[i])
    && y != [] && (forall i | 0 <= i < |y| :: IsLowerAlnum(y[i]))
  }

  lemma StripTwoWords(x: string, w: string, y: string)
    requires TwoWords(x, w, y)
    ensures Lower(x + w + y) == x + w + y
    ensures Filter(x + w + y, KeptByStrip) == x + w + y
  {
    var given := x + w + y;
    forall i | 0 <= i < |given|
      ensures LowerChar(given[i]) == given[i] && KeptByStrip(given[i])
    {
      if i < |x| {
        assert given[i] == x[i];
      } else if i < |x| + |w| {
        assert given[i] == w[i - |x|];
      } else {
        assert given[i] == y[i - |x| - |w|];
      }
    }
    FilterKeepsAll(given, KeptByStrip);
  }

  lemma UnderscoreTwoWords(x: string, w: string, y: string)
    requires TwoWords(x, w, y)
    ensures UnderscoreSpaces(x + w + y) == x + "_" + y
  {
    MaximalRunBecomesOneUnderscore(x, w, y);
    NoSpaceUnchanged(x);
    NoSpaceUnchanged(y);
  }

  /** With a word character on each side, the key keeps the two words and marks the gap with exactly one '_'. */
  lemma KeyOfTwoWords(x: string, w: string, y: string)
    requires TwoWords(x, w, y)
    requires |x| + 1 + |y| <= 50
    ensures GenerateFieldKey(x + w + y) == x + "_" + y
  {
    StripTwoWords(x, w, y);
    UnderscoreTwoWords(x, w, y);
    KeyVia(x + w + y, x + w + y, x + w + y, x + "_" + y);
  }

  /** A label made of symbols only (no letter, digit or white space) gets the empty key. */
  lemma SymbolOnlyLabel(fieldLabel: string)
    requires forall i | 0 <= i < |fieldLabel| :: !IsLowerAlnum(LowerChar(fieldLabel[i])) && !IsJsSpace(fieldLabel[i])
    ensures GenerateFieldKey(fieldLabel) == []
  {
    var l := Lower(fieldLabel);
    assert forall c | c in l :: !(IsLowerAlnum(c) || IsJsSpace(c));
    FilterDropsAll(l, KeptByStrip);
  }

  /**
   * Key generation is not idempotent: it strips underscores, so a key that
   * contains one, typed back in as a label, gives a different key.
   */
  lemma NotIdempotent(key: string)
    requires forall i | 0 <= i < |key| :: IsKeyChar(key[i])
    requires '_' in key
    ensures GenerateFieldKey(key) != key
  {
    var l := Lower(key);
    var stripped := StripDisallowed(l);
    assert forall c | c in l :: c in key;
    assert forall i | 0 <= i < |stripped| :: !IsJsSpace(stripped[i]) by {
      forall i | 0 <= i < |stripped|
        ensures !IsJsSpace(stripped[i])
      {
        assert stripped[i] in stripped;
      }
    }
    NoSpaceUnchanged(stripped);
    assert '_' !in stripped;
    var r := GenerateFieldKey(key);
    assert forall i | 0 <= i < |r| :: r[i] == stripped[i];
    assert '_' !in r;
  }

  // ---------------------------------------------------------------------
  // Options of select fields: one per line

  /** `s.split(sep)` */
  function Split(s: string, sep: char): (r: seq<string>)
    ensures |r| >= 1
    ensures forall i | 0 <= i < |r| :: sep !in r[i]
  {
    if s == [] then [[]]
    else
      var rest := Split(s[1..], sep);
      if s[0] == sep then [[]] + rest
      else [[s[0]] + rest[0]] + rest[1..]
  }

  /** `lines.join(sep)` */
  function Join(lines: seq<string>, sep: char): string
  {
    if |lines| == 0 then []
    else if |lines| == 1 then lines[0]
    else lines[0] + [sep] + Join(lines[1..], sep)
  }

  /** Splitting then joining gives back the text. */
  lemma {:induction false} JoinSplit(s: string, sep: char)
    ensures Join(Split(s, sep), sep) == s
    decreases |s|
  {
    if s != [] {
      var rest := Split(s[1..], sep);
      JoinSplit(s[1..], sep);
      if s[0] != sep {
        if |rest| > 1 {
          assert ([[s[0]] + rest[0]] + rest[1..])[1..] == rest[1..];
        }
      } else {
        assert ([[]] + rest)[1..] == rest;
      }
    }
  }

  /** Joining lines that do not contain the separator, then splitting, gives back the lines. */
  lemma {:induction false} SplitJoin(lines: seq<string>, sep: char)
    requires |lines| >= 1
    requires forall i | 0 <= i < |lines| :: sep !in lines[i]
    ensures Split(Join(lines, sep), sep) == lines
    decreases |lines|, |lines[0]|
  {
    if |lines| == 1 {
      SplitNoSep(lines[0], sep);
    } else {
      var head := lines[0];
      if head == [] {
        assert Join(lines, sep) == [sep] + Join(lines[1..], sep);
        SplitJoin(lines[1..], sep);
        assert [[]] + lines[1..] == lines;
      } else {
        var shorter := [head[1..]] + lines[1..];
        assert shorter[1..] == lines[1..];
        assert Join(lines, sep) == [head[0]] + Join(shorter, sep);
        SplitJoin(shorter, sep);
        assert [head[0]] + head[1..] == head;
        assert [[head[0]] + head[1..]] + lines[1..] == lines;
      }
    }
  }

  lemma {:induction false} SplitNoSep(s: string, sep: char)
    requires sep !in s
    ensures Split(s, sep) == [s]
    decreases |s|
  {
    if s != [] {
      SplitNoSep(s[1..], sep);
      assert [s[0]] + s[1..] == s;
    }
  }

  predicate NotBlank(line: string)
  {
    !IsBlank(line)
  }

  /** The options typed into the text area: one per line, blank lines dropped, the rest kept in order and as typed. */
  function ParseOptions(text: string): (r: seq<string>)
    ensures forall o | o in r :: '\n' !in o && NotBlank(o)
    ensures forall line | line in Split(text, '\n') && NotBlank(line) :: line in r
    ensures forall line | line in Split(text, '\n') ::
      Count(r, line) == if NotBlank(line) then Count(Split(text, '\n'), line) else 0
  {
    KeptLinesAreOptions(text);
    FilterCounts(Split(text, '\n'), NotBlank);
    Filter(Split(text, '\n'), NotBlank)
  }

  /** Every line the filter keeps is a single non-blank line. */
  lemma KeptLinesAreOptions(text: string)
    ensures forall o | o in Filter(Split(text, '\n'), NotBlank) :: '\n' !in o && NotBlank(o)
  {
    var lines := Split(text, '\n');
    assert forall line | line in lines :: '\n' !in line;
  }

  /** Parsing keeps the order of the lines it keeps. */
  lemma ParseKeepsOrder(text: string)
    ensures IsSubsequence(ParseOptions(text), Split(text, '\n'))
  {
    FilterIsSubsequence(Split(text, '\n'), NotBlank);
  }

  /** The text the options area shows: `(field.options || []).join('\n')`. */
  function OptionsText(options: Option<seq<string>>): string
  {
    if options.Some? then Join(options.value, '\n') else []
  }

  /**
   * Shown options survive an edit that changes nothing: re-parsing the
   * shown text gives the same options, provided none of them is blank or
   * spans lines.
   */
  lemma OptionsRoundTrip(options: seq<string>)
    requires forall i | 0 <= i < |options| :: '\n' !in options[i] && !IsBlank(options[i])
    ensures ParseOptions(OptionsText(Some(options))) == options
  {
    if options == [] {
      assert Split([], '\n') == [[]];
      assert IsBlank([]);
    } else {
      SplitJoin(options, '\n');
      FilterKeepsAll(options, NotBlank);
    }
  }
}
