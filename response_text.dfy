/**
 * The pure text helpers of services/GlobalServices.jsx: the completeness
 * heuristic `isResponseIncomplete`, the line cap `normalizeResponseLength`
 * and the `/[#*\-_]/g` formatting strip.
 */
module ResponseText {
  import opened Strings

  /** The endings `isResponseIncomplete` accepts as the end of a sentence, as one-character strings. */
  const ProperTerminators: seq<string> := [".", "!", "?", "\"", ":", ")"]

  /** The endings `isResponseIncomplete` treats as a sentence cut off after a function word. */
  const IncompleteEndings: seq<string> :=
    [" the", " a", " an", " and", " or", " but", " if", " as", " to", " in", " on",
     " with", " by", " for", " is", " are", " was", " were"]

  predicate IsTerminator(c: char) {
    c == '.' || c == '!' || c == '?' || c == '"' || c == ':' || c == ')'
  }

  /** `commonIncompleteEndings.some(ending => t.endsWith(ending))`. */
  predicate EndsWithIncompletePhrase(t: string) {
    exists i :: 0 <= i < |IncompleteEndings| && EndsWith(t, IncompleteEndings[i])
  }

  /** `text.trim().slice(-1)` is one of the proper terminators. */
  predicate HasProperEnding(t: string) {
    var lastChar := if t == [] then "" else [t[|t| - 1]];
    exists i :: 0 <= i < |ProperTerminators| && ProperTerminators[i] == lastChar
  }

  /** Every listed incomplete ending ends in a letter, which is never a terminator. */
  lemma IncompletePhraseHasNoProperEnding(t: string)
    requires EndsWithIncompletePhrase(t)
    ensures !HasProperEnding(t)
  {
    var i :| 0 <= i < |IncompleteEndings| && EndsWith(t, IncompleteEndings[i]);
    var e := IncompleteEndings[i];
    EndingsEndInLetters(i);
    LastOfSuffix(t, e);
    LetterIsNoTerminator(t[|t| - 1]);
    ProperEndingIsTerminator(t);
  }

  lemma LetterIsNoTerminator(c: char)
    requires 'a' <= c <= 'z'
    ensures !IsTerminator(c)
  {
  }

  lemma LastOfSuffix(t: string, e: string)
    requires e != [] && EndsWith(t, e)
    ensures t[|t| - 1] == e[|e| - 1]
  {
    assert t[|t| - |e|..][|e| - 1] == t[|t| - 1];
  }

  lemma EndingsEndInLetters(i: nat)
    requires i < |IncompleteEndings|
    ensures var e := IncompleteEndings[i]; e != [] && 'a' <= e[|e| - 1] <= 'z'
  {
  }

  /** A proper ending is a last character that is a terminator. */
  lemma ProperEndingIsTerminator(t: string)
    ensures HasProperEnding(t) <==> (t != [] && IsTerminator(t[|t| - 1]))
  {
    if t != [] {
      var c := t[|t| - 1];
      assert [c] in ProperTerminators <==> IsTerminator(c) by {
        if IsTerminator(c) {
          assert [c] == ProperTerminators[0] || [c] == ProperTerminators[1] || [c] == ProperTerminators[2]
              || [c] == ProperTerminators[3] || [c] == ProperTerminators[4] || [c] == ProperTerminators[5];
        } else {
          forall i | 0 <= i < |ProperTerminators| ensures ProperTerminators[i] != [c] {
            assert ProperTerminators[i][0] != c;
          }
        }
      }
    }
  }

  /** `isResponseIncomplete`: the source's completeness heuristic, branch for branch. */
  function IsResponseIncomplete(text: string): bool {
    if text == "" then true
    else
      var t := Trim(text);
      EndsWithIncompletePhrase(t) || !HasProperEnding(t)
  }

  /**
   * A text counts as cut off exactly when it is empty or blank, or when its
   * trimmed form does not end in one of `. ! ? " : )`: the stop-phrase test
   * never changes the outcome.
   */
  lemma IncompleteIffNoTerminator(text: string)
    ensures IsResponseIncomplete(text) <==> (Trim(text) == [] || !IsTerminator(Trim(text)[|Trim(text)| - 1]))
  {
    TrimShape(text);
    if text != "" {
      var t := Trim(text);
      ProperEndingIsTerminator(t);
      if EndsWithIncompletePhrase(t) {
        IncompletePhraseHasNoProperEnding(t);
      }
    }
  }

  /** `targetLines`: 12 lines for a lecture, 8 otherwise. */
  function TargetLines(isLecture: bool): nat {
    if isLecture then 12 else 8
  }

  /** `lines.filter(line => line.trim().length > 0)`. */
  function ContentOnly(lines: seq<string>): (kept: seq<string>)
    ensures |kept| <= |lines|
    ensures forall l :: l in kept ==> l in lines && |Trim(l)| > 0
    ensures forall l :: l in lines && |Trim(l)| > 0 ==> l in kept
    decreases |lines|
  {
    if lines == [] then []
    else (if |Trim(lines[0])| > 0 then [lines[0]] else []) + ContentOnly(lines[1..])
  }

  /**
   * The filter works line by line: the kept lines of two pieces are the kept
   * lines of each, in order, so every non-blank line is kept as often as it
   * occurs and where it occurs.
   */
  lemma {:induction false} ContentOnlyConcat(a: seq<string>, b: seq<string>)
    ensures ContentOnly(a + b) == ContentOnly(a) + ContentOnly(b)
    decreases |a|
  {
    if a == [] {
      assert a + b == b;
    } else {
      assert (a + b)[0] == a[0] && (a + b)[1..] == a[1..] + b;
      ContentOnlyConcat(a[1..], b);
    }
  }

  /** A single line is kept exactly when it is non-blank. */
  lemma ContentOnlyLine(l: string)
    ensures ContentOnly([l]) == if |Trim(l)| > 0 then [l] else []
  {
    assert [l][1..] == [];
  }

  /** The non-blank lines of `text`, in order. */
  function ContentLines(text: string): seq<string> {
    ContentOnly(Split(text, '\n'))
  }

  /**
   * `normalizeResponseLength(text, isLecture)`: a text with at most the target
   * number of non-blank lines is kept as it is; a longer one becomes its first
   * target-many non-blank lines joined by newlines.
   */
  function NormalizeResponseLength(text: string, isLecture: bool): string {
    if text == "" then ""
    else
      var lines := ContentLines(text);
      if |lines| <= TargetLines(isLecture) then text
      else Join(lines[..TargetLines(isLecture)], '\n')
  }

  /** Filtering lines that are all non-blank keeps them all. */
  lemma {:induction false} ContentOnlyKeepsContent(lines: seq<string>)
    requires forall l :: l in lines ==> |Trim(l)| > 0
    ensures ContentOnly(lines) == lines
    decreases |lines|
  {
    if lines != [] {
      assert lines[0] in lines;
      assert forall l :: l in lines[1..] ==> l in lines;
      ContentOnlyKeepsContent(lines[1..]);
      assert [lines[0]] + lines[1..] == lines;
    }
  }

  /**
   * The non-blank lines of the normalized text are exactly the first
   * target-many non-blank lines of the input (all of them when there are fewer).
   */
  lemma NormalizeKeepsLeadingLines(text: string, isLecture: bool)
    ensures |ContentLines(text)| <= TargetLines(isLecture) ==>
              ContentLines(NormalizeResponseLength(text, isLecture)) == ContentLines(text)
    ensures |ContentLines(text)| > TargetLines(isLecture) ==>
              ContentLines(NormalizeResponseLength(text, isLecture)) == ContentLines(text)[..TargetLines(isLecture)]
  {
    if |ContentLines(text)| > TargetLines(isLecture) {
      LongTextCapped(text, isLecture);
    } else if text == "" {
      NoContentLinesInEmpty();
    }
  }

  lemma NoContentLinesInEmpty()
    ensures ContentLines("") == []
  {
  }

  /** The long case of `NormalizeKeepsLeadingLines`. */
  lemma LongTextCapped(text: string, isLecture: bool)
    requires |ContentLines(text)| > TargetLines(isLecture)
    ensures ContentLines(NormalizeResponseLength(text, isLecture)) == ContentLines(text)[..TargetLines(isLecture)]
  {
    assert text != "";
    var n := TargetLines(isLecture);
    CappedLines(text, n);
    assert NormalizeResponseLength(text, isLecture) == Join(ContentLines(text)[..n], '\n');
  }

  /** The non-blank lines of the first `n` non-blank lines, joined, are those lines. */
  lemma CappedLines(text: string, n: nat)
    requires 0 < n < |ContentLines(text)|
    ensures ContentLines(Join(ContentLines(text)[..n], '\n')) == ContentLines(text)[..n]
  {
    var parts := Split(text, '\n');
    var lines := ContentOnly(parts);
    var kept := lines[..n];
    assert forall l :: l in kept ==> l in lines;
    assert forall l :: l in kept ==> l in parts && '\n' !in l && |Trim(l)| > 0;
    SplitJoin(kept, '\n');
    ContentOnlyKeepsContent(kept);
  }

  /** A normalized text never has more non-blank lines than the target. */
  lemma NormalizeBoundsLines(text: string, isLecture: bool)
    ensures |ContentLines(NormalizeResponseLength(text, isLecture))| <= TargetLines(isLecture)
  {
    NormalizeKeepsLeadingLines(text, isLecture);
  }

  /** Normalizing a second time changes nothing. */
  lemma NormalizeIdempotent(text: string, isLecture: bool)
    ensures var r := NormalizeResponseLength(text, isLecture);
            NormalizeResponseLength(r, isLecture) == r
  {
    NormalizeBoundsLines(text, isLecture);
  }

  /** Normalizing yields "" exactly for the empty input. */
  lemma NormalizeEmptyOnlyForEmpty(text: string, isLecture: bool)
    ensures NormalizeResponseLength(text, isLecture) == "" <==> text == ""
  {
    if |ContentLines(text)| > TargetLines(isLecture) {
      LongTextCapped(text, isLecture);
      NoContentLinesInEmpty();
    }
  }

  /** One of the four characters `/[#*\-_]/g` removes. */
  predicate IsFormatChar(c: char) {
    c == '#' || c == '*' || c == '-' || c == '_'
  }

  predicate NoFormatting(s: string) {
    forall i :: 0 <= i < |s| ==> !IsFormatChar(s[i])
  }

  /** `s.replace(/[#*\-_]/g, '')`: every character except `# * - _`, in order. */
  function StripFormatting(s: string): (r: string)
    ensures NoFormatting(r)
    ensures |r| <= |s|
    decreases |s|
  {
    if s == [] then []
    else (if IsFormatChar(s[0]) then [] else [s[0]]) + StripFormatting(s[1..])
  }

  /** One character is deleted when it is `# * - _` and kept otherwise. */
  lemma StripFormattingChar(c: char)
    ensures StripFormatting([c]) == if IsFormatChar(c) then [] else [c]
  {
    assert [c][1..] == [];
  }

  /** Stripping distributes over concatenation, so it keeps the order of what it keeps. */
  lemma {:induction false} StripFormattingConcat(a: string, b: string)
    ensures StripFormatting(a + b) == StripFormatting(a) + StripFormatting(b)
    decreases |a|
  {
    if a != [] {
      var head := if IsFormatChar(a[0]) then [] else [a[0]];
      assert (a + b)[0] == a[0] && (a + b)[1..] == a[1..] + b;
      assert StripFormatting(a + b) == head + StripFormatting(a[1..] + b);
      StripFormattingConcat(a[1..], b);
      assert StripFormatting(a) == head + StripFormatting(a[1..]);
    } else {
      assert a + b == b;
    }
  }

  /** Stripping leaves a text unchanged exactly when it has no formatting character. */
  lemma {:induction false} StripFormattingFixed(s: string)
    ensures StripFormatting(s) == s <==> NoFormatting(s)
    decreases |s|
  {
    if s != [] {
      StripFormattingFixed(s[1..]);
      if IsFormatChar(s[0]) {
        assert |StripFormatting(s)| <= |s[1..]|;
      } else {
        assert NoFormatting(s) <==> NoFormatting(s[1..]);
      }
    }
  }

  /** The cleanup at the end of a non-lecture turn: strip formatting, then trim. */
  function CleanResponse(s: string): string {
    Trim(StripFormatting(s))
  }

  /**
   * A cleaned reply has none of `# * - _`, neither starts nor ends with white
   * space, and is empty exactly when nothing but formatting and white space
   * was there.
   */
  lemma CleanResponseShape(s: string)
    ensures var r := CleanResponse(s);
            && NoFormatting(r)
            && (r == [] || (!IsWhiteSpace(r[0]) && !IsWhiteSpace(r[|r| - 1])))
            && (r == [] <==> IsBlank(StripFormatting(s)))
  {
    var stripped := StripFormatting(s);
    TrimShape(stripped);
    var r := Trim(stripped);
    assert forall i :: 0 <= i < |r| ==> r[i] in stripped;
  }

  /** The pieces of a formatting-free text are formatting-free. */
  lemma {:induction false} SplitKeepsNoFormatting(s: string, sep: char)
    requires NoFormatting(s)
    ensures forall p :: p in Split(s, sep) ==> NoFormatting(p)
    decreases |s|
  {
    if s != [] {
      SplitKeepsNoFormatting(s[1..], sep);
      var rest := Split(s[1..], sep);
      assert rest[0] in rest;
      assert forall p :: p in rest[1..] ==> p in rest;
    }
  }

  /** Joining formatting-free pieces with a newline is formatting-free. */
  lemma {:induction false} JoinKeepsNoFormatting(parts: seq<string>)
    requires forall p :: p in parts ==> NoFormatting(p)
    ensures NoFormatting(Join(parts, '\n'))
    decreases |parts|
  {
    if |parts| > 1 {
      assert parts[0] in parts;
      assert forall p :: p in parts[1..] ==> p in parts;
      JoinKeepsNoFormatting(parts[1..]);
    }
  }

  /** Capping the lines of a formatting-free text keeps it formatting-free. */
  lemma NormalizeKeepsNoFormatting(text: string, isLecture: bool)
    requires NoFormatting(text)
    ensures NoFormatting(NormalizeResponseLength(text, isLecture))
  {
    var n := TargetLines(isLecture);
    var lines := ContentLines(text);
    if text != "" && |lines| > n {
      SplitKeepsNoFormatting(text, '\n');
      assert forall l :: l in lines[..n] ==> l in lines;
      JoinKeepsNoFormatting(lines[..n]);
    }
  }
}
