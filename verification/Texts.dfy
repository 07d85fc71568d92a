/** The two text normalizers that grounding rests on, over any Unicode tables. */
module Texts {

  /** NFKC, full case folding and white space; case folding works character by character. */
  datatype Unicode = Unicode(nfkc: string -> string, fold: char -> string, space: char -> bool)
  {
    /** Folding leaves white space alone and never makes any. */
    ghost predicate WellBehaved() {
      && space(' ') && space('\n') && space('\r')
      && (forall c :: space(c) ==> fold(c) == [c])
      && (forall c :: !space(c) ==> |fold(c)| > 0 && forall i :: 0 <= i < |fold(c)| ==> !space(fold(c)[i]))
    }
  }

  function Flush(word: string): seq<string> {
    if |word| == 0 then [] else [word]
  }

  /** `str.split()` from the middle of `word` on: the runs of characters that are not space. */
  function Scan(u: Unicode, text: string, word: string): seq<string> {
    if |text| == 0 then Flush(word)
    else if u.space(text[0]) then Flush(word) + Scan(u, text[1..], "")
    else Scan(u, text[1..], word + [text[0]])
  }

  function Words(u: Unicode, text: string): seq<string> {
    Scan(u, text, "")
  }

  /** `sep.join(parts)`. */
  function Join(sep: char, parts: seq<string>): string {
    if |parts| == 0 then ""
    else if |parts| == 1 then parts[0]
    else parts[0] + [sep] + Join(sep, parts[1..])
  }

  function Folded(u: Unicode, text: string): string {
    if |text| == 0 then "" else u.fold(text[0]) + Folded(u, text[1..])
  }

  // ---- the leaf's steps ----

  /** `replace("\r\n", "\n")`. */
  function WithoutCrLf(text: string): string {
    if |text| == 0 then ""
    else if |text| > 1 && text[0] == '\r' && text[1] == '\n' then "\n" + WithoutCrLf(text[2..])
    else [text[0]] + WithoutCrLf(text[1..])
  }

  /** `replace("\r", "\n")`. */
  function WithoutCr(text: string): string {
    if |text| == 0 then "" else [if text[0] == '\r' then '\n' else text[0]] + WithoutCr(text[1..])
  }

  /** `split("\n")`, from the middle of `line` on. */
  function Lines(text: string, line: string): (lines: seq<string>)
    ensures |lines| > 0
  {
    if |text| == 0 then [line]
    else if text[0] == '\n' then [line] + Lines(text[1..], "")
    else Lines(text[1..], line + [text[0]])
  }

  function Collapsed(u: Unicode, lines: seq<string>): seq<string> {
    if |lines| == 0 then [] else [Join(' ', Words(u, lines[0]))] + Collapsed(u, lines[1..])
  }

  /** `re.sub(r"\n{3,}", "\n\n", text)`, after `run` newlines. */
  function Squeezed(text: string, run: nat): string {
    if |text| == 0 then ""
    else if text[0] == '\n' then (if run < 2 then "\n" else "") + Squeezed(text[1..], run + 1)
    else [text[0]] + Squeezed(text[1..], 0)
  }

  function LeftStripped(u: Unicode, text: string): string {
    if |text| > 0 && u.space(text[0]) then LeftStripped(u, text[1..]) else text
  }

  function RightStripped(u: Unicode, text: string): string {
    if |text| > 0 && u.space(text[|text| - 1]) then RightStripped(u, text[..|text| - 1]) else text
  }

  /** `str.strip()`. */
  function Stripped(u: Unicode, text: string): string {
    RightStripped(u, LeftStripped(u, text))
  }

  // ---- the normalizers ----

  /** The auditor's normalizer, which the extractor's equals letter for letter. */
  function Normalized(u: Unicode, text: string): string {
    Join(' ', Words(u, Folded(u, u.nfkc(text))))
  }

  /** The eligibility leaf's line-keeping normalizer. */
  function LineNormalized(u: Unicode, text: string): string {
    var value := WithoutCr(WithoutCrLf(u.nfkc(text)));
    var lines := Join('\n', Collapsed(u, Lines(value, "")));
    Folded(u, Stripped(u, Squeezed(lines, 0)))
  }

  /** The eligibility leaf's `_grounding_normalize`. */
  function GroundingNormalized(u: Unicode, text: string): string {
    Join(' ', Words(u, LineNormalized(u, text)))
  }

  predicate At(quote: string, text: string, i: nat) {
    i + |quote| <= |text| && text[i..i + |quote|] == quote
  }

  /** `quote in text`. */
  predicate Occurs(quote: string, text: string) {
    exists i :: 0 <= i <= |text| && At(quote, text, i)
  }

  /** `not quote.strip()`. */
  predicate Blank(u: Unicode, quote: string) {
    forall i :: 0 <= i < |quote| ==> u.space(quote[i])
  }

  // ---- words ----

  lemma {:induction false} ScanBreaks(u: Unicode, a: string, sep: char, b: string, word: string)
    requires u.space(sep)
    ensures Scan(u, a + [sep] + b, word) == Scan(u, a, word) + Scan(u, b, "")
  {
    var all := a + [sep] + b;
    if |a| == 0 {
      assert all[0] == sep && all[1..] == b;
    } else {
      assert all[0] == a[0] && all[1..] == a[1..] + [sep] + b;
      if u.space(a[0]) {
        ScanBreaks(u, a[1..], sep, b, "");
      } else {
        ScanBreaks(u, a[1..], sep, b, word + [a[0]]);
      }
    }
  }

  predicate Solid(u: Unicode, word: string) {
    forall i :: 0 <= i < |word| ==> !u.space(word[i])
  }

  lemma {:induction false} ScanSolid(u: Unicode, text: string, word: string)
    requires Solid(u, text)
    ensures Scan(u, text, word) == Flush(word + text)
  {
    if |text| == 0 {
      assert word + text == word;
    } else {
      ScanSolid(u, text[1..], word + [text[0]]);
      assert word + [text[0]] + text[1..] == word + text;
    }
  }

  lemma {:induction false} WordsAreSolid(u: Unicode, text: string, word: string)
    requires Solid(u, word)
    ensures forall k :: 0 <= k < |Scan(u, text, word)| ==>
      Scan(u, text, word)[k] != "" && Solid(u, Scan(u, text, word)[k])
  {
    if |text| > 0 {
      if u.space(text[0]) {
        WordsAreSolid(u, text[1..], "");
      } else {
        WordsAreSolid(u, text[1..], word + [text[0]]);
      }
    }
  }

  /** Joining words with a space and splitting again gives the words back. */
  lemma {:induction false} WordsOfJoined(u: Unicode, words: seq<string>)
    requires u.space(' ') && forall k :: 0 <= k < |words| ==> words[k] != "" && Solid(u, words[k])
    ensures Words(u, Join(' ', words)) == words
  {
    if |words| == 1 {
      ScanSolid(u, words[0], "");
      assert "" + words[0] == words[0];
    } else if |words| > 1 {
      ScanBreaks(u, words[0], ' ', Join(' ', words[1..]), "");
      ScanSolid(u, words[0], "");
      assert "" + words[0] == words[0];
      WordsOfJoined(u, words[1..]);
    }
  }

  /** Collapsing every line keeps the words of the text. */
  lemma {:induction false} CollapsedKeepsWords(u: Unicode, lines: seq<string>)
    requires u.space(' ') && u.space('\n')
    ensures Words(u, Join('\n', Collapsed(u, lines))) == Words(u, Join('\n', lines))
  {
    if |lines| > 0 {
      var first := Join(' ', Words(u, lines[0]));
      WordsAreSolid(u, lines[0], "");
      WordsOfJoined(u, Words(u, lines[0]));
      if |lines| == 1 {
        assert Collapsed(u, lines) == [first];
      } else {
        var rest := Collapsed(u, lines[1..]);
        CollapsedKeepsWords(u, lines[1..]);
        assert Collapsed(u, lines)[1..] == rest && |rest| > 0;
        ScanBreaks(u, first, '\n', Join('\n', rest), "");
        ScanBreaks(u, lines[0], '\n', Join('\n', lines[1..]), "");
      }
    }
  }

  lemma {:induction false} LinesJoined(text: string, line: string)
    ensures Join('\n', Lines(text, line)) == line + text
  {
    if |text| > 0 {
      if text[0] == '\n' {
        LinesJoined(text[1..], "");
        assert Lines(text, line)[1..] == Lines(text[1..], "");
        assert line + ['\n'] + ("" + text[1..]) == line + text;
      } else {
        LinesJoined(text[1..], line + [text[0]]);
        assert line + [text[0]] + text[1..] == line + text;
      }
    }
  }

  // ---- steps that only touch white space ----

  lemma {:induction false} CrLfKeepsWords(u: Unicode, text: string, word: string)
    requires u.space('\n') && u.space('\r')
    ensures Scan(u, WithoutCrLf(text), word) == Scan(u, text, word)
    decreases |text|
  {
    if |text| > 1 && text[0] == '\r' && text[1] == '\n' {
      CrLfKeepsWords(u, text[2..], "");
      assert WithoutCrLf(text)[1..] == WithoutCrLf(text[2..]);
      assert text[1..][0] == '\n' && text[1..][1..] == text[2..];
      assert Scan(u, text[1..], "") == [] + Scan(u, text[2..], "");
    } else if |text| > 0 {
      CrLfKeepsWords(u, text[1..], if u.space(text[0]) then "" else word + [text[0]]);
      assert WithoutCrLf(text)[1..] == WithoutCrLf(text[1..]);
    }
  }

  lemma {:induction false} CrKeepsWords(u: Unicode, text: string, word: string)
    requires u.space('\n') && u.space('\r')
    ensures Scan(u, WithoutCr(text), word) == Scan(u, text, word)
  {
    if |text| > 0 {
      CrKeepsWords(u, text[1..], if u.space(text[0]) then "" else word + [text[0]]);
      assert WithoutCr(text)[1..] == WithoutCr(text[1..]);
    }
  }

  lemma {:induction false} SqueezedKeepsWords(u: Unicode, text: string, run: nat, word: string)
    requires u.space('\n') && (run > 0 ==> word == "")
    ensures Scan(u, Squeezed(text, run), word) == Scan(u, text, word)
  {
    if |text| > 0 {
      if text[0] == '\n' {
        SqueezedKeepsWords(u, text[1..], run + 1, "");
        if run < 2 {
          assert Squeezed(text, run)[1..] == Squeezed(text[1..], run + 1);
        } else {
          assert Squeezed(text, run) == Squeezed(text[1..], run + 1);
          assert Flush(word) == [];
        }
      } else {
        SqueezedKeepsWords(u, text[1..], 0, if u.space(text[0]) then "" else word + [text[0]]);
        assert Squeezed(text, run)[1..] == Squeezed(text[1..], 0);
      }
    }
  }

  lemma {:induction false} StripKeepsWords(u: Unicode, text: string)
    ensures Words(u, LeftStripped(u, text)) == Words(u, text)
    ensures Words(u, RightStripped(u, text)) == Words(u, text)
  {
    if |text| > 0 && u.space(text[0]) {
      StripKeepsWords(u, text[1..]);
    }
    if |text| > 0 && u.space(text[|text| - 1]) {
      var most, last := text[..|text| - 1], text[|text| - 1];
      StripKeepsWords(u, most);
      ScanBreaks(u, most, last, "", "");
      assert most + [last] + "" == text;
    }
  }

  // ---- folding ----

  function FoldedAll(u: Unicode, words: seq<string>): seq<string> {
    if |words| == 0 then [] else [Folded(u, words[0])] + FoldedAll(u, words[1..])
  }

  lemma {:induction false} FoldedConcat(u: Unicode, a: string, b: string)
    ensures Folded(u, a + b) == Folded(u, a) + Folded(u, b)
  {
    if |a| == 0 {
      assert a + b == b;
    } else {
      assert (a + b)[1..] == a[1..] + b;
      FoldedConcat(u, a[1..], b);
    }
  }

  lemma {:induction false} FoldedGrows(u: Unicode, text: string)
    requires u.WellBehaved()
    ensures |Folded(u, text)| >= |text|
  {
    if |text| > 0 {
      FoldedGrows(u, text[1..]);
    }
  }

  lemma {:induction false} ScanSolidPrefix(u: Unicode, solid: string, text: string, word: string)
    requires Solid(u, solid)
    ensures Scan(u, solid + text, word) == Scan(u, text, word + solid)
  {
    if |solid| == 0 {
      assert solid + text == text && word + solid == word;
    } else {
      assert (solid + text)[1..] == solid[1..] + text;
      ScanSolidPrefix(u, solid[1..], text, word + [solid[0]]);
      assert word + [solid[0]] + solid[1..] == word + solid;
    }
  }

  lemma FoldedFlush(u: Unicode, word: string, words: seq<string>)
    requires u.WellBehaved()
    ensures FoldedAll(u, Flush(word) + words) == Flush(Folded(u, word)) + FoldedAll(u, words)
  {
    hide u.WellBehaved;
    FoldedGrows(u, word);
    if |word| == 0 {
      assert Flush(word) + words == words;
      assert Folded(u, word) == "";
    } else {
      assert (Flush(word) + words)[1..] == words;
    }
  }

  lemma ScanSpace(u: Unicode, c: char, rest: string, word: string)
    requires u.space(c)
    ensures Scan(u, [c] + rest, word) == Flush(word) + Scan(u, rest, "")
  {
    assert ([c] + rest)[1..] == rest;
  }

  lemma FoldedSpace(u: Unicode, text: string)
    requires u.WellBehaved() && |text| > 0 && u.space(text[0])
    ensures Folded(u, text) == [text[0]] + Folded(u, text[1..])
  {
  }

  lemma FoldedSolid(u: Unicode, c: char, word: string)
    requires u.WellBehaved() && !u.space(c)
    ensures Solid(u, u.fold(c)) && Folded(u, word + [c]) == Folded(u, word) + u.fold(c)
  {
    FoldedConcat(u, word, [c]);
    assert Folded(u, [c]) == u.fold(c) + "";
  }

  /** Folding the text folds its words. */
  lemma {:induction false} FoldedWords(u: Unicode, text: string, word: string)
    requires u.WellBehaved()
    ensures Scan(u, Folded(u, text), Folded(u, word)) == FoldedAll(u, Scan(u, text, word))
  {
    hide u.WellBehaved;
    if |text| == 0 {
      FoldedFlush(u, word, []);
    } else {
      var rest := Folded(u, text[1..]);
      if u.space(text[0]) {
        FoldedSpace(u, text);
        ScanSpace(u, text[0], rest, Folded(u, word));
        FoldedWords(u, text[1..], "");
        FoldedFlush(u, word, Scan(u, text[1..], ""));
      } else {
        FoldedSolid(u, text[0], word);
        ScanSolidPrefix(u, u.fold(text[0]), rest, Folded(u, word));
        FoldedWords(u, text[1..], word + [text[0]]);
      }
    }
  }

  // ---- the agreement ----

  /** Both leaves and the auditor normalize every text to the same string. */
  lemma NormalizersAgree(u: Unicode, text: string)
    requires u.WellBehaved()
    ensures GroundingNormalized(u, text) == Normalized(u, text)
  {
    hide Folded, Scan, WithoutCr, WithoutCrLf, Lines, Collapsed, Squeezed, LeftStripped, RightStripped;
    var raw := u.nfkc(text);
    var value := WithoutCr(WithoutCrLf(raw));
    CrLfKeepsWords(u, raw, "");
    CrKeepsWords(u, WithoutCrLf(raw), "");
    var lines := Join('\n', Collapsed(u, Lines(value, "")));
    CollapsedKeepsWords(u, Lines(value, ""));
    LinesJoined(value, "");
    assert "" + value == value;
    SqueezedKeepsWords(u, lines, 0, "");
    StripKeepsWords(u, Squeezed(lines, 0));
    StripKeepsWords(u, LeftStripped(u, Squeezed(lines, 0)));
    var kept := Stripped(u, Squeezed(lines, 0));
    assert Words(u, kept) == Words(u, raw);
    FoldedNothing(u);
    FoldedWords(u, kept, "");
    FoldedWords(u, raw, "");
  }

  lemma FoldedNothing(u: Unicode)
    ensures Folded(u, "") == ""
  {
  }
}
