/**
 * How the form turns its two free-text list fields into lists: the skills
 * field is split on `,` and the project-descriptions field on line feeds, and
 * every piece is trimmed. Empty pieces are kept where they fall.
 */
module Parsing {
  import opened Text

  /** `.map(x => x.trim())`: one trimmed item per piece, in the same order. */
  function TrimAll(pieces: seq<string>): (r: seq<string>)
    ensures |r| == |pieces|
    ensures forall i :: 0 <= i < |r| ==> r[i] == Trim(pieces[i])
  {
    if pieces == [] then [] else [Trim(pieces[0])] + TrimAll(pieces[1..])
  }

  /**
   * `s.split(sep).map(x => x.trim())`: `k` separators give `k + 1` items,
   * none with outer whitespace and none containing the separator.
   */
  function ParseList(s: string, sep: char): (items: seq<string>)
    ensures |items| == Count(s, sep) + 1
    ensures forall i :: 0 <= i < |items| ==> NoOuterWhitespace(items[i]) && sep !in items[i]
  {
    var pieces := Split(s, sep);
    var items := TrimAll(pieces);
    assert forall i :: 0 <= i < |items| ==> sep !in items[i] by {
      forall i | 0 <= i < |items| ensures sep !in items[i] {
        TrimKeepsCharacters(pieces[i]);
      }
    }
    items
  }

  /** The skills field: comma-separated. */
  function ParseSkills(skills: string): (items: seq<string>)
    ensures |items| == Count(skills, ',') + 1
    ensures forall i :: 0 <= i < |items| ==> NoOuterWhitespace(items[i]) && ',' !in items[i]
  {
    ParseList(skills, ',')
  }

  /** The project-descriptions field: one description per line. */
  function ParseProjectDescriptions(descriptions: string): (items: seq<string>)
    ensures |items| == Count(descriptions, '\n') + 1
    ensures forall i :: 0 <= i < |items| ==> NoOuterWhitespace(items[i]) && '\n' !in items[i]
  {
    ParseList(descriptions, '\n')
  }

  /**
   * The items keep the order of the input: item `i` is the trimmed `i`-th
   * segment, and the segments put back together with the separator are the
   * input itself.
   */
  lemma ParseListInOrder(s: string, sep: char)
    ensures var segments := Split(s, sep);
      Join(segments, sep) == s &&
      forall i :: 0 <= i < |segments| ==> ParseList(s, sep)[i] == Trim(segments[i])
  {
    JoinSplit(s, sep);
  }

  /** An empty field still gives one (empty) item. */
  lemma ParseListEmpty(sep: char)
    ensures ParseList("", sep) == [""]
  {
  }

  /** Parsing the segments written out with the separator trims each of them. */
  lemma ParseListSegments(segments: seq<string>, sep: char)
    requires |segments| >= 1
    requires forall i :: 0 <= i < |segments| ==> sep !in segments[i]
    ensures ParseList(Join(segments, sep), sep) == TrimAll(segments)
  {
    SplitJoin(segments, sep);
  }

  /**
   * A list whose items are already trimmed and free of the separator survives
   * being written out with the separator and parsed again.
   */
  lemma ParseListJoin(items: seq<string>, sep: char)
    requires |items| >= 1
    requires forall i :: 0 <= i < |items| ==> NoOuterWhitespace(items[i]) && sep !in items[i]
    ensures ParseList(Join(items, sep), sep) == items
  {
    ParseListSegments(items, sep);
    TrimAllTrimmed(items);
  }

  lemma {:induction false} TrimAllTrimmed(items: seq<string>)
    requires forall i :: 0 <= i < |items| ==> NoOuterWhitespace(items[i])
    ensures TrimAll(items) == items
  {
    if items != [] {
      TrimAllTrimmed(items[1..]);
      TrimFixes(items[0]);
      assert [items[0]] + items[1..] == items;
    }
  }

  /** The skills of the sample profile "C, Math, Logic" parse to three clean items. */
  lemma SampleSkills()
    ensures ParseSkills("C, Math, Logic") == ["C", "Math", "Logic"]
  {
    var segments := ["C", " Math", " Logic"];
    assert Join(segments, ',') == "C, Math, Logic";
    ParseListSegments(segments, ',');
    TrimmedSampleSkills();
  }

  lemma TrimmedSampleSkills()
    ensures TrimAll(["C", " Math", " Logic"]) == ["C", "Math", "Logic"]
  {
    TrimUnique("", "C", "");
    TrimUnique(" ", "Math", "");
    TrimUnique(" ", "Logic", "");
    assert " Math" == " " + "Math" + "";
    assert " Logic" == " " + "Logic" + "";
  }

  /** Windows line endings leave no stray carriage return on a description. */
  lemma CarriageReturnsTrimmed()
    ensures ParseProjectDescriptions("Engine\r\nLoom") == ["Engine", "Loom"]
  {
    var segments := ["Engine\r", "Loom"];
    assert Join(segments, '\n') == "Engine\r\nLoom";
    ParseListSegments(segments, '\n');
    TrimmedSampleDescriptions();
  }

  lemma TrimmedSampleDescriptions()
    ensures TrimAll(["Engine\r", "Loom"]) == ["Engine", "Loom"]
  {
    TrimUnique("", "Engine", "\r");
    TrimUnique("", "Loom", "");
    assert "Engine\r" == "" + "Engine" + "\r";
  }
}
