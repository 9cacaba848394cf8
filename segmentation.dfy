/**
  The section split shared by the reader and the tutor: split on blank lines,
  strip the pieces and keep the non-empty ones; failing that, split on the
  ideographic full stop; failing that, the whole text is one section.
*/
module Segmentation {
  import opened Text

  const ParagraphBreak: string := "\n\n"
  const FullStop: string := "。"

  /** `[p.strip() for p in pieces if p.strip()]`. */
  function KeepContent(pieces: seq<string>): seq<string>
  {
    if pieces == [] then [] else Kept(pieces[0]) + KeepContent(pieces[1..])
  }

  /** What the comprehension keeps of one piece. */
  function Kept(piece: string): seq<string>
  {
    var s := Strip(piece);
    if s == "" then [] else [s]
  }

  /** Every kept piece is stripped and non-empty. */
  lemma {:induction false} KeepContentTrimmed(pieces: seq<string>)
    ensures forall x | x in KeepContent(pieces) :: x != "" && Trimmed(x)
  {
    if pieces != [] {
      KeepContentTrimmed(pieces[1..]);
      assert KeepContent(pieces) == Kept(pieces[0]) + KeepContent(pieces[1..]);
    }
  }

  /** Nothing is kept exactly when every piece is whitespace. */
  lemma {:induction false} KeepContentEmpty(pieces: seq<string>)
    ensures KeepContent(pieces) == [] <==> forall i :: 0 <= i < |pieces| ==> AllSpace(pieces[i])
  {
    if pieces != [] {
      var tail := pieces[1..];
      KeepContentEmpty(tail);
      StripEmpty(pieces[0]);
      if forall i :: 0 <= i < |pieces| ==> AllSpace(pieces[i]) {
        assert forall i :: 0 <= i < |tail| ==> AllSpace(tail[i]) by {
          forall i | 0 <= i < |tail| ensures AllSpace(tail[i]) {
            assert tail[i] == pieces[i + 1];
          }
        }
      } else {
        var k :| 0 <= k < |pieces| && !AllSpace(pieces[k]);
        if k > 0 {
          assert tail[k - 1] == pieces[k];
        }
      }
    }
  }

  /** The three-step rule of the reader and the tutor. */
  function Sections(text: string): (r: seq<string>)
    ensures |r| >= 1
  {
    var paragraphs := KeepContent(Split(text, ParagraphBreak));
    if paragraphs != [] then paragraphs
    else
      var sentences := KeepContent(Split(text, FullStop));
      if sentences != [] then sentences else [text]
  }

  /**
    The blank-line split finds nothing only when the whole text is whitespace;
    then the full-stop split finds nothing either, so the second step never
    yields a section.
  */
  lemma ParagraphsEmptyIffBlank(text: string)
    ensures KeepContent(Split(text, ParagraphBreak)) == [] <==> AllSpace(text)
  {
    var pieces := Split(text, ParagraphBreak);
    SplitJoin(text, ParagraphBreak);
    assert Join(pieces, ParagraphBreak) == text;
    BreakIsSpace();
    ContentIffNotBlank(pieces, ParagraphBreak);
  }

  lemma BreakIsSpace()
    ensures AllSpace(ParagraphBreak)
  {
    assert IsSpace('\n');
  }

  lemma SentencesOfBlank(text: string)
    requires AllSpace(text)
    ensures KeepContent(Split(text, FullStop)) == []
  {
    SplitJoin(text, FullStop);
    NoContentInBlank(Split(text, FullStop), FullStop);
  }

  /** With a whitespace separator, pieces have content exactly when their join does. */
  lemma ContentIffNotBlank(pieces: seq<string>, sep: string)
    requires AllSpace(sep)
    ensures KeepContent(pieces) == [] <==> AllSpace(Join(pieces, sep))
  {
    KeepContentEmpty(pieces);
    JoinAllSpace(pieces, sep);
  }

  /** Whatever the separator, the pieces of a blank join are blank. */
  lemma NoContentInBlank(pieces: seq<string>, sep: string)
    requires AllSpace(Join(pieces, sep))
    ensures KeepContent(pieces) == []
  {
    forall i | 0 <= i < |pieces| ensures AllSpace(pieces[i]) {
      JoinPieceAllSpace(pieces, sep, i);
    }
    KeepContentEmpty(pieces);
  }

  lemma {:induction false} JoinPieceAllSpace(xs: seq<string>, sep: string, i: nat)
    requires i < |xs| && AllSpace(Join(xs, sep))
    ensures AllSpace(xs[i])
  {
    if |xs| >= 2 {
      AllSpaceConcat(xs[0] + sep, Join(xs[1..], sep));
      AllSpaceConcat(xs[0], sep);
      if i > 0 {
        JoinPieceAllSpace(xs[1..], sep, i - 1);
      }
    }
  }

  /** Whitespace-only text is its own single section, unchanged; any other text takes the blank-line split. */
  lemma SectionsCases(text: string)
    ensures AllSpace(text) ==> Sections(text) == [text]
    ensures !AllSpace(text) ==> Sections(text) == KeepContent(Split(text, ParagraphBreak))
  {
    ParagraphsEmptyIffBlank(text);
    if AllSpace(text) {
      SentencesOfBlank(text);
    }
  }

  /** Every section of a text with some content is stripped and non-empty. */
  lemma SectionsTrimmed(text: string, i: nat)
    requires !AllSpace(text) && i < |Sections(text)|
    ensures Sections(text)[i] != "" && Trimmed(Sections(text)[i])
  {
    SectionsCases(text);
    KeepContentTrimmed(Split(text, ParagraphBreak));
    assert Sections(text)[i] in Sections(text);
  }

  /** Keeping content preserves the left-to-right order of the pieces. */
  lemma {:induction false} KeepContentAppend(ps: seq<string>, qs: seq<string>)
    ensures KeepContent(ps + qs) == KeepContent(ps) + KeepContent(qs)
  {
    if ps == [] {
      assert ps + qs == qs;
    } else {
      calc {
        KeepContent(ps + qs);
        { assert (ps + qs)[0] == ps[0]; assert (ps + qs)[1..] == ps[1..] + qs; }
        Kept(ps[0]) + KeepContent(ps[1..] + qs);
        { KeepContentAppend(ps[1..], qs); }
        Kept(ps[0]) + (KeepContent(ps[1..]) + KeepContent(qs));
        (Kept(ps[0]) + KeepContent(ps[1..])) + KeepContent(qs);
      }
    }
  }

  /** A string without an occurrence of the separator is a single piece. */
  lemma {:induction false} SplitWithoutOccurrence(s: string, sep: string)
    requires sep != "" && !Contains(s, sep)
    ensures Split(s, sep) == [s]
  {
    assert s[0..] == s;
    if s != "" {
      assert !Contains(s[1..], sep) by {
        forall i | 0 <= i <= |s[1..]| ensures !StartsWith(s[1..][i..], sep) {
          assert s[1..][i..] == s[i + 1..];
        }
      }
      SplitWithoutOccurrence(s[1..], sep);
      assert [s[0]] + s[1..] == s;
    }
  }

  /** Text with content and no blank line is one section: the stripped text. */
  lemma SingleParagraph(text: string)
    requires !AllSpace(text) && !Contains(text, ParagraphBreak)
    ensures Sections(text) == [Strip(text)]
  {
    SplitWithoutOccurrence(text, ParagraphBreak);
    SectionsCases(text);
    StripEmpty(text);
    assert [text][1..] == [];
    assert KeepContent([text]) == Kept(text) + KeepContent([]);
  }

  lemma NoNewlineNoBreak(s: string)
    requires '\n' !in s
    ensures !Contains(s, ParagraphBreak)
  {
    forall i | 0 <= i <= |s| ensures !StartsWith(s[i..], ParagraphBreak) {
      if i < |s| {
        assert s[i] in s;
        assert s[i..][0] == s[i];
      }
    }
  }

  /** A trimmed text with content and no line break is its own single section. */
  lemma OneLineOneSection(text: string)
    requires text != "" && Trimmed(text) && '\n' !in text
    ensures Sections(text) == [text]
  {
    assert !IsSpace(text[0]);
    NoNewlineNoBreak(text);
    SingleParagraph(text);
    StripPadded("", text, "");
    assert "" + text + "" == text;
  }

  /**
    A Chinese text whose sentences are not separated by blank lines stays one
    section: the full-stop split is never reached.
  */
  lemma FullStopsDoNotSplit()
    ensures Sections("你好。再见。") == ["你好。再见。"]
  {
    var t := "你好。再见。";
    assert '\n' !in t;
    OneLineOneSection(t);
  }
}
