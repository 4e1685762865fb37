/**
 * Lyrics as the catalog returns them: TTML text, and the "clean" form that
 * keeps the text of every `<p …>…</p>` element, one per line.
 *
 * The clean form is `re.findall` of the pattern `(?:<p.*?>)(.*?)(?:</p>)`
 * joined with newlines. The pattern is compiled without flags, so `.` matches
 * any character but a newline, and both `.*?` are lazy. `Matches` states when
 * the pattern matches at the start of a string; `MatchHere` is the scanner that
 * finds the match the regular expression engine reports, and `MatchHereIsLeast`
 * proves that the two agree.
 */
module Lyrics {
  import opened Wrappers

  const OPEN: string := "<p"
  const CLOSE: string := "</p>"

  /** `s` holds no newline: `.` can match each of its characters. */
  predicate OneLine(s: string)
  {
    forall k :: 0 <= k < |s| ==> s[k] != '\n'
  }

  /** `</p>` starts at `e` in `t`. */
  predicate ClosesAt(t: string, e: nat)
  {
    e + 4 <= |t| && t[e] == CLOSE[0] && t[e + 1] == CLOSE[1] && t[e + 2] == CLOSE[2] && t[e + 3] == CLOSE[3]
  }

  /**
   * The pattern matches at the start of `t` with the `>` of the opening tag
   * at `j` and the closing `</p>` at `e`; the capture is then `t[j + 1..e]`.
   */
  predicate Matches(t: string, j: nat, e: nat)
  {
    |t| >= 2 && t[..2] == OPEN
    && 2 <= j < |t| && t[j] == '>' && OneLine(t[2..j])
    && j + 1 <= e && ClosesAt(t, e) && OneLine(t[j + 1..e])
  }

  /** Where `>` first appears in `t`, unless a newline comes first. */
  function TagEnd(t: string): (r: Option<nat>)
    ensures r.Some? ==> r.value < |t|
  {
    if |t| == 0 || t[0] == '\n' then None
    else if t[0] == '>' then Some(0)
    else
      match TagEnd(t[1..])
      case None => None
      case Some(j) => Some(j + 1)
  }

  /** Where `</p>` first appears in `t`, unless a newline comes first. */
  function CloseAt(t: string): (r: Option<nat>)
    ensures r.Some? ==> r.value + 4 <= |t|
  {
    if |t| < 4 then None
    else if ClosesAt(t, 0) then Some(0)
    else if t[0] == '\n' then None
    else
      match CloseAt(t[1..])
      case None => None
      case Some(e) => Some(e + 1)
  }

  /** `TagEnd` finds the first `>` on the first line, and fails only when the first line has none. */
  lemma {:induction false} TagEndIsFirst(t: string)
    ensures TagEnd(t).Some? ==>
              var j := TagEnd(t).value;
              t[j] == '>' && forall k :: 0 <= k < j ==> t[k] != '>' && t[k] != '\n'
    ensures TagEnd(t).None? ==> forall j :: 0 <= j < |t| && t[j] == '>' ==> exists k :: 0 <= k < j && t[k] == '\n'
    decreases |t|
  {
    if |t| > 0 && t[0] != '\n' && t[0] != '>' {
      var tail := t[1..];
      TagEndIsFirst(tail);
      if TagEnd(tail).Some? {
        var j := TagEnd(tail).value;
        assert t[j + 1] == tail[j];
        forall k | 1 <= k < j + 1
          ensures t[k] != '>' && t[k] != '\n'
        {
          assert t[k] == tail[k - 1];
        }
      } else {
        forall j | 0 <= j < |t| && t[j] == '>'
          ensures exists k :: 0 <= k < j && t[k] == '\n'
        {
          assert tail[j - 1] == '>';
          var k :| 0 <= k < j - 1 && tail[k] == '\n';
          assert t[k + 1] == '\n';
        }
      }
    }
  }

  /** `CloseAt` finds the first `</p>` on the first line, and fails only when the first line has none. */
  lemma {:induction false} CloseAtIsFirst(t: string)
    ensures CloseAt(t).Some? ==>
              var e := CloseAt(t).value;
              ClosesAt(t, e) && forall k :: 0 <= k < e ==> t[k] != '\n' && !ClosesAt(t, k)
    ensures CloseAt(t).None? ==> forall e :: ClosesAt(t, e) ==> exists k :: 0 <= k < e && t[k] == '\n'
    decreases |t|
  {
    if |t| >= 4 && !ClosesAt(t, 0) && t[0] != '\n' {
      var tail := t[1..];
      CloseAtIsFirst(tail);
      if CloseAt(tail).Some? {
        var e := CloseAt(tail).value;
        assert ClosesAt(tail, e);
        forall k | 1 <= k < e + 1
          ensures t[k] != '\n' && !ClosesAt(t, k)
        {
          assert t[k] == tail[k - 1];
          assert ClosesAt(t, k) ==> ClosesAt(tail, k - 1);
        }
      } else {
        forall e: nat | ClosesAt(t, e)
          ensures exists k :: 0 <= k < e && t[k] == '\n'
        {
          assert ClosesAt(tail, e - 1);
          var k :| 0 <= k < e - 1 && tail[k] == '\n';
          assert t[k + 1] == '\n';
        }
      }
    }
  }

  /** The engine's attempt at the start of `t`: the `>` and `</p>` positions of the match, if any. */
  function MatchHere(t: string): (r: Option<(nat, nat)>)
    ensures r.Some? ==> 2 <= r.value.0 && r.value.0 + 1 <= r.value.1 && r.value.1 + 4 <= |t|
  {
    if |t| < 2 || t[..2] != OPEN then None
    else
      match TagEnd(t[2..])
      case None => None
      case Some(a) =>
        var j := a + 2;
        match CloseAt(t[j + 1..])
        case None => None
        case Some(b) => Some((j, j + 1 + b))
  }

  /** What `MatchHere` reports is a match of the pattern. */
  lemma MatchHereMatches(t: string)
    requires MatchHere(t).Some?
    ensures Matches(t, MatchHere(t).value.0, MatchHere(t).value.1)
  {
    var (j, e) := MatchHere(t).value;
    var tail, rest := t[2..], t[j + 1..];
    TagEndIsFirst(tail);
    CloseAtIsFirst(rest);
    assert t[j] == tail[j - 2];
    assert ClosesAt(rest, e - j - 1);
    var tag, capture := t[2..j], t[j + 1..e];
    forall k | 0 <= k < |tag|
      ensures tag[k] != '\n'
    {
      assert tag[k] == tail[k];
    }
    forall k | 0 <= k < |capture|
      ensures capture[k] != '\n'
    {
      assert capture[k] == rest[k];
    }
  }

  /**
   * The lazy quantifiers make the engine report the match whose `>` comes
   * first and, for that `>`, whose `</p>` comes first. Trying a later `>` never
   * rescues a failed attempt, so the scanner needs no backtracking: it fails
   * exactly when there is no match at all.
   */
  lemma MatchHereIsLeast(t: string)
    ensures MatchHere(t).Some? ==>
              var (j, e) := MatchHere(t).value;
              Matches(t, j, e) && forall j', e' :: Matches(t, j', e') ==> j < j' || (j == j' && e <= e')
    ensures MatchHere(t).None? ==> forall j, e :: !Matches(t, j, e)
  {
    if MatchHere(t).Some? {
      MatchHereMatches(t);
    }
    forall j', e' | Matches(t, j', e')
      ensures MatchHere(t).Some? && var (j, e) := MatchHere(t).value; j < j' || (j == j' && e <= e')
    {
      MatchBeatsLater(t, j', e');
    }
  }

  lemma MatchBeatsLater(t: string, j': nat, e': nat)
    requires Matches(t, j', e')
    ensures MatchHere(t).Some? && var (j, e) := MatchHere(t).value; j < j' || (j == j' && e <= e')
  {
    var tail, tag, capture := t[2..], t[2..j'], t[j' + 1..e'];
    TagEndIsFirst(tail);
    assert tail[j' - 2] == '>';
    assert forall k :: 0 <= k < j' - 2 ==> tail[k] == tag[k];
    var j := TagEnd(tail).value + 2;
    assert j <= j';
    var rest := t[j + 1..];
    CloseAtIsFirst(rest);
    var b := e' - (j + 1);
    assert ClosesAt(rest, b);
    forall k | 0 <= k < b
      ensures rest[k] != '\n'
    {
      assert rest[k] == t[j + 1 + k];
      if j + 1 + k < j' {
        assert tag[j - 1 + k] == t[j + 1 + k];
      } else if j' < j + 1 + k {
        assert capture[j + k - j'] == t[j + 1 + k];
      }
    }
    var c := CloseAt(rest).value;
    assert j == j' ==> c <= b;
  }

  /** `re.findall`: every match scanning left to right, the next attempt starting after the `</p>` of the last match. */
  function FindAll(t: string): (lines: seq<string>)
    decreases |t|
  {
    if |t| == 0 then []
    else
      match MatchHere(t)
      case None => FindAll(t[1..])
      case Some((j, e)) => [t[j + 1..e]] + FindAll(t[e + 4..])
  }

  /** `"\n".join(lines)`. */
  function Join(lines: seq<string>): string
  {
    if |lines| == 0 then ""
    else if |lines| == 1 then lines[0]
    else lines[0] + "\n" + Join(lines[1..])
  }

  /** `s.split("\n")`: the pieces between newlines, one more than there are newlines. */
  function Split(s: string): (pieces: seq<string>)
    ensures |pieces| >= 1
  {
    if |s| == 0 then [""]
    else
      var rest := Split(s[1..]);
      if s[0] == '\n' then [""] + rest else [[s[0]] + rest[0]] + rest[1..]
  }

  /** Matches do not overlap, and each takes at least the seven characters of `<p>` and `</p>`. */
  lemma {:induction false} FindAllSpaced(t: string)
    ensures 7 * |FindAll(t)| <= |t|
    decreases |t|
  {
    if |t| > 0 {
      var m := MatchHere(t);
      if m.None? {
        assert FindAll(t) == FindAll(t[1..]);
        FindAllSpaced(t[1..]);
      } else {
        var e := m.value.1;
        assert |FindAll(t)| == 1 + |FindAll(t[e + 4..])|;
        FindAllSpaced(t[e + 4..]);
      }
    }
  }

  /** No capture spans a newline. */
  lemma {:induction false} FindAllOneLine(t: string)
    ensures forall line <- FindAll(t) :: OneLine(line)
    decreases |t|
  {
    if |t| > 0 {
      match MatchHere(t)
      case None =>
        FindAllOneLine(t[1..]);
      case Some((j, e)) =>
        MatchHereMatches(t);
        var capture := t[j + 1..e];
        assert forall k :: 0 <= k < |capture| ==> capture[k] == t[j + 1..e][k];
        FindAllOneLine(t[e + 4..]);
    }
  }

  /** Joining `k` lines that hold no newline puts exactly `k - 1` newlines in the result. */
  lemma {:induction false} JoinNewlines(lines: seq<string>)
    requires |lines| >= 1 && forall line <- lines :: OneLine(line)
    ensures multiset(Join(lines))['\n'] == |lines| - 1
  {
    assert '\n' !in lines[0] by {
      assert lines[0] in lines;
    }
    if |lines| > 1 {
      assert forall line <- lines[1..] :: line in lines;
      JoinNewlines(lines[1..]);
    }
  }

  /** Splitting a line with no newline, or such a line followed by a newline and more text. */
  lemma {:induction false} SplitLine(line: string, more: Option<string>)
    requires OneLine(line)
    ensures more.None? ==> Split(line) == [line]
    ensures more.Some? ==> Split(line + "\n" + more.value) == [line] + Split(more.value)
    decreases |line|
  {
    if |line| > 0 {
      SplitLine(line[1..], more);
      if more.Some? {
        assert (line + "\n" + more.value)[1..] == line[1..] + "\n" + more.value;
      }
      assert [line[0]] + line[1..] == line;
    }
  }

  /** Splitting at newlines undoes joining lines that hold none. */
  lemma {:induction false} SplitJoin(lines: seq<string>)
    requires |lines| >= 1 && forall line <- lines :: OneLine(line)
    ensures Split(Join(lines)) == lines
  {
    assert lines[0] in lines;
    if |lines| == 1 {
      SplitLine(lines[0], None);
    } else {
      assert forall line <- lines[1..] :: line in lines;
      SplitJoin(lines[1..]);
      SplitLine(lines[0], Some(Join(lines[1..])));
    }
  }

  // ---------------------------------------------------------------------------
  // The lyrics object
  // ---------------------------------------------------------------------------

  /** The attributes of a lyrics object; the play parameters are not part of this model. */
  datatype LyricsAttributes = LyricsAttributes(ttml: string)

  datatype Lyrics = Lyrics(id: string, kind: string, attributes: LyricsAttributes)
  {
    /** The `ttml` property. */
    function Ttml(): string
    {
      attributes.ttml
    }

    /** The `clean` property: the text of every paragraph, one per line. */
    function Clean(): string
    {
      Join(FindAll(Ttml()))
    }

    /** `str(lyrics)`. */
    function ToString(): string
    {
      Clean()
    }
  }

  /**
   * The clean form has one line per match, in order: no match gives the empty
   * string, and `k >= 1` matches give exactly `k - 1` newlines, so splitting it
   * at newlines gives the captures back.
   */
  lemma CleanLines(lyrics: Lyrics)
    ensures FindAll(lyrics.Ttml()) == [] ==> lyrics.ToString() == ""
    ensures FindAll(lyrics.Ttml()) != [] ==>
              multiset(lyrics.ToString())['\n'] == |FindAll(lyrics.Ttml())| - 1
              && Split(lyrics.ToString()) == FindAll(lyrics.Ttml())
  {
    var lines := FindAll(lyrics.Ttml());
    FindAllOneLine(lyrics.Ttml());
    if lines != [] {
      JoinNewlines(lines);
      SplitJoin(lines);
    }
  }

  /** Where the pattern matches nowhere, `clean` is empty. */
  lemma {:induction false} NoMatchNoLines(t: string)
    requires forall s, j, e :: 0 <= s <= |t| ==> !Matches(t[s..], j, e)
    ensures FindAll(t) == []
    decreases |t|
  {
    if |t| > 0 {
      assert t[0..] == t;
      if MatchHere(t).Some? {
        MatchHereMatches(t);
        assert false;
      }
      forall s, j, e | 0 <= s <= |t[1..]|
        ensures !Matches(t[1..][s..], j, e)
      {
        assert t[1..][s..] == t[s + 1..];
      }
      NoMatchNoLines(t[1..]);
    }
  }

  // ---------------------------------------------------------------------------
  // Rendering paragraphs and reading them back
  // ---------------------------------------------------------------------------

  /** A `<p>` element: the attribute text after `<p` and the text it holds. */
  datatype Paragraph = Paragraph(attributes: string, text: string)

  /** Attributes hold no `>`, and text is escaped (no `<`); neither spans lines. */
  predicate WellFormed(p: Paragraph)
  {
    OneLine(p.attributes) && '>' !in p.attributes && OneLine(p.text) && '<' !in p.text
  }

  function Element(p: Paragraph): string
  {
    OPEN + p.attributes + ">" + p.text + CLOSE
  }

  function Render(ps: seq<Paragraph>): string
  {
    if ps == [] then "" else Element(ps[0]) + Render(ps[1..])
  }

  function Texts(ps: seq<Paragraph>): (texts: seq<string>)
    ensures |texts| == |ps|
  {
    if ps == [] then [] else [ps[0].text] + Texts(ps[1..])
  }

  lemma {:induction false} TagEndOfAttributes(attributes: string, rest: string)
    requires OneLine(attributes) && '>' !in attributes
    ensures TagEnd(attributes + ">" + rest) == Some(|attributes|)
    decreases |attributes|
  {
    if |attributes| > 0 {
      assert attributes[0] in attributes;
      assert (attributes + ">" + rest)[1..] == attributes[1..] + ">" + rest;
      assert forall c <- attributes[1..] :: c in attributes;
      TagEndOfAttributes(attributes[1..], rest);
    }
  }

  lemma {:induction false} CloseAfterText(text: string, rest: string)
    requires OneLine(text) && '<' !in text
    ensures CloseAt(text + CLOSE + rest) == Some(|text|)
    decreases |text|
  {
    var t := text + CLOSE + rest;
    if |text| > 0 {
      assert text[0] in text;
      assert t[1..] == text[1..] + CLOSE + rest;
      assert forall c <- text[1..] :: c in text;
      CloseAfterText(text[1..], rest);
    }
  }

  /** The match at the start of a rendered element captures exactly its text and ends where it ends. */
  lemma MatchElement(p: Paragraph, rest: string)
    requires WellFormed(p)
    ensures var t := Element(p) + rest;
            var j := |p.attributes| + 2;
            MatchHere(t) == Some((j, j + 1 + |p.text|)) && t[j + 1..j + 1 + |p.text|] == p.text
            && t[j + 1 + |p.text| + 4..] == rest
  {
    var t := Element(p) + rest;
    var j := |p.attributes| + 2;
    assert t[..2] == OPEN;
    assert t[2..] == p.attributes + ">" + (p.text + CLOSE + rest);
    TagEndOfAttributes(p.attributes, p.text + CLOSE + rest);
    assert t[j + 1..] == p.text + CLOSE + rest;
    CloseAfterText(p.text, rest);
  }

  /** Scanning resumes right after a rendered element. */
  lemma FindAllElement(p: Paragraph, rest: string)
    requires WellFormed(p)
    ensures FindAll(Element(p) + rest) == [p.text] + FindAll(rest)
  {
    MatchElement(p, rest);
  }

  /** Reading back rendered paragraphs gives their texts, in order. */
  lemma {:induction false} FindAllRender(ps: seq<Paragraph>)
    requires forall p <- ps :: WellFormed(p)
    ensures FindAll(Render(ps)) == Texts(ps)
  {
    if ps != [] {
      assert ps[0] in ps;
      FindAllElement(ps[0], Render(ps[1..]));
      assert forall p <- ps[1..] :: p in ps;
      FindAllRender(ps[1..]);
    }
  }

  /** Lyrics whose TTML is rendered paragraphs print as the paragraphs' texts, one per line. */
  lemma CleanRender(lyrics: Lyrics, ps: seq<Paragraph>)
    requires lyrics.Ttml() == Render(ps) && forall p <- ps :: WellFormed(p)
    ensures lyrics.ToString() == Join(Texts(ps))
  {
    FindAllRender(ps);
  }
}
