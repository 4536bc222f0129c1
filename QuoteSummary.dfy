/**
 * The labels the quote summary shows for the chosen coverage type and
 * vehicle usage: "third-party-fire-theft" is shown as
 * "Third Party Fire Theft", "commercial" as "Commercial".
 */
module QuoteSummary {
  import opened JsStrings

  /** `coverageType.split('-').map(w => w.charAt(0).toUpperCase() + w.slice(1)).join(' ')` */
  function CoverageLabel(coverageType: string): string {
    Join(CapitalizeEach(Split(coverageType, '-')), ' ')
  }

  /** `vehicleUsage.charAt(0).toUpperCase() + vehicleUsage.slice(1)` */
  function UsageLabel(vehicleUsage: string): (shown: string)
    ensures |shown| == |vehicleUsage|
    ensures vehicleUsage != [] ==> shown[0] == ToUpperChar(vehicleUsage[0]) && shown[1..] == vehicleUsage[1..]
  {
    Capitalize(vehicleUsage)
  }

  /** The coverage label computed in one left-to-right pass: a dash becomes
      a space, and a character right after a dash (or first, when `atStart`)
      is upper-cased. */
  function TitleCase(s: string, atStart: bool): string {
    if s == [] then []
    else if s[0] == '-' then [' '] + TitleCase(s[1..], true)
    else [if atStart then ToUpperChar(s[0]) else s[0]] + TitleCase(s[1..], false)
  }

  /** Joining a list whose head is `a + b` puts `a` in front of the join of
      the list with head `b`. */
  lemma JoinFirstPiece(a: string, b: string, ws: seq<string>, sep: char)
    ensures Join([a + b] + ws, sep) == a + Join([b] + ws, sep)
  {
    if ws != [] {
      assert ([a + b] + ws)[1..] == ws == ([b] + ws)[1..];
    }
  }

  /** The split-capitalise-join pipeline equals the one-pass scan; with the
      first piece left as it is, it equals the scan that does not start
      upper-casing. */
  lemma {:induction false} PipelineIsTitleCase(s: string)
    ensures Join(CapitalizeEach(Split(s, '-')), ' ') == TitleCase(s, true)
    ensures Join([Split(s, '-')[0]] + CapitalizeEach(Split(s, '-')[1..]), ' ') == TitleCase(s, false)
  {
    if s != [] {
      var rest := Split(s[1..], '-');
      PipelineIsTitleCase(s[1..]);
      var caps := CapitalizeEach(rest[1..]);
      if s[0] == '-' {
        assert Split(s, '-') == [[]] + rest;
        assert CapitalizeEach([[]] + rest) == [[]] + CapitalizeEach(rest);
        assert ([[]] + rest)[1..] == rest;
      } else {
        var head := [s[0]] + rest[0];
        assert Split(s, '-') == [head] + rest[1..];
        assert ([head] + rest[1..])[1..] == rest[1..];
        assert CapitalizeEach([head] + rest[1..]) == [Capitalize(head)] + caps;
        assert Capitalize(head) == [ToUpperChar(s[0])] + rest[0];
        JoinFirstPiece([ToUpperChar(s[0])], rest[0], caps, ' ');
        JoinFirstPiece([s[0]], rest[0], caps, ' ');
      }
    }
  }

  /** Each character of the scan, described on its own: a dash becomes a
      space; a character that starts a word is upper-cased; any other stays. */
  lemma {:induction false} TitleCaseAt(s: string, atStart: bool)
    ensures |TitleCase(s, atStart)| == |s|
    ensures forall i {:trigger TitleCase(s, atStart)[i]} :: 0 <= i < |s| ==>
      TitleCase(s, atStart)[i] ==
        if s[i] == '-' then ' '
        else if (i == 0 && atStart) || (i > 0 && s[i - 1] == '-') then ToUpperChar(s[i])
        else s[i]
  {
    if s != [] {
      TitleCaseAt(s[1..], s[0] == '-');
      assert forall i :: 1 <= i < |s| ==> s[1..][i - 1] == s[i];
    }
  }

  /** The coverage label keeps the length of the coverage type, shows a space
      exactly where the coverage type has a dash or a space, upper-cases the
      first letter of each dash-separated word and leaves every other
      character as it is. */
  lemma CoverageLabelShape(s: string)
    ensures |CoverageLabel(s)| == |s|
    ensures forall i :: 0 <= i < |s| ==> (CoverageLabel(s)[i] == ' ' <==> s[i] == '-' || s[i] == ' ')
    ensures forall i :: 0 <= i < |s| && s[i] != '-' ==>
      CoverageLabel(s)[i] == if i == 0 || s[i - 1] == '-' then ToUpperChar(s[i]) else s[i]
  {
    PipelineIsTitleCase(s);
    TitleCaseAt(s, true);
    forall i | 0 <= i < |s|
      ensures CoverageLabel(s)[i] == ' ' <==> s[i] == '-' || s[i] == ' '
    {
      TitleCaseAt(s, true);
      assert CoverageLabel(s)[i] == TitleCase(s, true)[i];
      assert TitleCase(s, true)[i] ==
        if s[i] == '-' then ' '
        else if i == 0 || s[i - 1] == '-' then ToUpperChar(s[i])
        else s[i];
      assert ToUpperChar(s[i]) == ' ' <==> s[i] == ' ';
    }
  }

  /** The label of dash-separated words is the capitalised words joined
      by spaces. */
  lemma CoverageLabelOfWords(words: seq<string>)
    requires |words| >= 1
    requires forall k, i :: 0 <= k < |words| && 0 <= i < |words[k]| ==> words[k][i] != '-'
    ensures CoverageLabel(Join(words, '-')) == Join(CapitalizeEach(words), ' ')
  {
    SplitJoin(words, '-');
  }

  /** The labels of the third-party and comprehensive coverage types and
      of no choice. (The coverage types are passed through parameters so
      that the verifier does not evaluate the split on literals.) */
  lemma CoverageLabelExamples(a: string, c: string)
    requires a == "third-party" && c == "comprehensive"
    ensures CoverageLabel(a) == "Third Party"
    ensures CoverageLabel(c) == "Comprehensive"
    ensures CoverageLabel("") == ""
  {
    assert CoverageLabel(a) == "Third Party" by {
      var words := ["third", "party"];
      assert Join(words, '-') == a;
      CoverageLabelOfWords(words);
    }
    assert CoverageLabel(c) == "Comprehensive" by {
      var words := [c];
      assert Join(words, '-') == c;
      CoverageLabelOfWords(words);
    }
    assert CoverageLabel("") == "" by {
      assert Split("", '-') == [""];
    }
  }

  /** The label of four dash-separated words is the four capitalised words
      joined by spaces. */
  lemma CoverageLabelOfFourWords(w1: string, w2: string, w3: string, w4: string)
    requires forall i :: 0 <= i < |w1| ==> w1[i] != '-'
    requires forall i :: 0 <= i < |w2| ==> w2[i] != '-'
    requires forall i :: 0 <= i < |w3| ==> w3[i] != '-'
    requires forall i :: 0 <= i < |w4| ==> w4[i] != '-'
    ensures CoverageLabel(w1 + "-" + w2 + "-" + w3 + "-" + w4) ==
      Capitalize(w1) + " " + Capitalize(w2) + " " + Capitalize(w3) + " " + Capitalize(w4)
  {
    var words := [w1, w2, w3, w4];
    assert Join([w4], '-') == w4;
    assert Join([w3, w4], '-') == w3 + "-" + w4 by { assert [w3, w4][1..] == [w4]; }
    assert Join([w2, w3, w4], '-') == w2 + "-" + w3 + "-" + w4 by { assert [w2, w3, w4][1..] == [w3, w4]; }
    assert Join(words, '-') == w1 + "-" + w2 + "-" + w3 + "-" + w4 by { assert words[1..] == [w2, w3, w4]; }
    CoverageLabelOfWords(words);
    var c1, c2, c3, c4 := Capitalize(w1), Capitalize(w2), Capitalize(w3), Capitalize(w4);
    assert CapitalizeEach(words) == [c1, c2, c3, c4];
    assert Join([c4], ' ') == c4;
    assert Join([c3, c4], ' ') == c3 + " " + c4 by { assert [c3, c4][1..] == [c4]; }
    assert Join([c2, c3, c4], ' ') == c2 + " " + c3 + " " + c4 by { assert [c2, c3, c4][1..] == [c3, c4]; }
    assert Join([c1, c2, c3, c4], ' ') == c1 + " " + c2 + " " + c3 + " " + c4 by { assert [c1, c2, c3, c4][1..] == [c2, c3, c4]; }
  }

  /** The label of the third-party, fire and theft coverage type,
      "third-party-fire-theft", built from its four words. (The words are
      passed through parameters so that the verifier does not evaluate the
      split on a literal.) */
  lemma FireTheftLabelExample(w1: string, w2: string, w3: string, w4: string)
    requires w1 == "third" && w2 == "party" && w3 == "fire" && w4 == "theft"
    ensures CoverageLabel(w1 + "-" + w2 + "-" + w3 + "-" + w4) == "Third Party Fire Theft"
  {
    CoverageLabelOfFourWords(w1, w2, w3, w4);
    assert Capitalize(w1) == "Third" && Capitalize(w2) == "Party";
    assert Capitalize(w3) == "Fire" && Capitalize(w4) == "Theft";
  }

  /** The labels of the two usage types and of no choice. */
  lemma UsageLabelExamples()
    ensures UsageLabel("personal") == "Personal"
    ensures UsageLabel("commercial") == "Commercial"
    ensures UsageLabel("") == ""
  {
  }
}
