/**
 * Filling the six briefing tiles from the report HTML. The classic page first
 * removes Markdown code fences and trims; both pages then look up each tile's
 * section by class name, falling back to the n-th section element. The parsed
 * document is abstracted as its elements in document order.
 */
module BriefingSections {
  import opened Wrappers
  import opened Text
  import opened Sequences

  predicate StartsWith(s: string, p: string) {
    |p| <= |s| && s[..|p|] == p
  }

  /** Global removal of "```html" or "```", scanning left to right. */
  function RemoveFences(s: string): string
    decreases |s|
  {
    if s == [] then []
    else if StartsWith(s, "```html") then RemoveFences(s[7..])
    else if StartsWith(s, "```") then RemoveFences(s[3..])
    else [s[0]] + RemoveFences(s[1..])
  }

  /** The classic page's clean-up before parsing. */
  function CleanFences(s: string): string {
    Trim(JavaScript, RemoveFences(s))
  }

  /** Text without a backtick passes through the removal unchanged. */
  lemma {:induction false} RemoveFencesPlain(x: string, y: string)
    requires '`' !in x
    ensures RemoveFences(x + y) == x + RemoveFences(y)
    decreases |x|
  {
    if x != [] {
      assert x[0] != '`';
      assert (x + y)[1..] == x[1..] + y;
      NotFenceStart(x + y, x[0]);
      RemoveFencesPlain(x[1..], y);
    } else {
      assert x + y == y;
    }
  }

  /** A text whose first character is not a backtick starts no fence. */
  lemma NotFenceStart(s: string, c: char)
    requires s != [] && s[0] == c && c != '`'
    ensures !StartsWith(s, "```html") && !StartsWith(s, "```")
  {
    if |s| >= 3 {
      assert s[..3][0] == c;
    }
    if |s| >= 7 {
      assert s[..7][0] == c;
    }
  }

  /** The fenced block the model is asked not to send comes out as its content. */
  lemma FencedBlock(x: string)
    requires '`' !in x
    ensures CleanFences("```html" + x + "```") == Trim(JavaScript, x)
  {
    var s := "```html" + x + "```";
    assert StartsWith(s, "```html");
    assert s[7..] == x + "```";
    RemoveFencesPlain(x, "```");
    assert StartsWith("```", "```");
    assert "```"[3..] == [];
    assert x + [] == x;
  }

  /** After the removal no "```" is left, even where removed parts were adjacent. */
  lemma {:induction false} NoFenceLeft(s: string)
    ensures !Contains(RemoveFences(s), "```")
    decreases |s|
  {
    if s == [] {
    } else if StartsWith(s, "```html") {
      NoFenceLeft(s[7..]);
    } else if StartsWith(s, "```") {
      NoFenceLeft(s[3..]);
    } else {
      NoFenceLeft(s[1..]);
      KeptHead(s);
    }
  }

  /** Prepending an unmatched first character creates no fence. */
  lemma KeptHead(s: string)
    requires s != [] && !StartsWith(s, "```")
    requires !Contains(RemoveFences(s[1..]), "```")
    ensures !Contains(RemoveFences(s), "```")
  {
    var t := RemoveFences(s[1..]);
    assert !StartsWith(s, "```html") by {
      if |s| >= 7 {
        assert s[..3] == s[..7][..3];
      }
    }
    var u := RemoveFences(s);
    assert u == [s[0]] + t;
    HeadNotFence(s);
    if |u| >= 3 {
      assert u[..3] == [s[0], t[0], t[1]];
    }
    ConsLacks(s[0], t, "```");
  }

  /** A kept backtick is never followed by two more in the output. */
  lemma HeadNotFence(s: string)
    requires s != [] && !StartsWith(s, "```")
    ensures var t := RemoveFences(s[1..]); !(s[0] == '`' && |t| >= 2 && t[0] == '`' && t[1] == '`')
  {
    var t := RemoveFences(s[1..]);
    if s[0] == '`' && |t| >= 2 && t[0] == '`' {
      var r := s[1..];
      assert !StartsWith(r, "```") by {
        if |r| >= 3 {
          assert s[..3] == [s[0]] + r[..2];
        }
      }
      assert !StartsWith(r, "```html") by {
        if |r| >= 7 {
          assert r[..3] == r[..7][..3];
        }
      }
      assert t == [r[0]] + RemoveFences(r[1..]);
      var q := r[1..];
      assert !StartsWith(q, "```") by {
        if |q| >= 3 {
          assert s[..3] == [s[0], r[0]] + q[..1];
        }
      }
      assert !StartsWith(q, "```html") by {
        if |q| >= 7 {
          assert q[..3] == q[..7][..3];
        }
      }
      assert RemoveFences(q) == [q[0]] + RemoveFences(q[1..]);
      assert t[1] == q[0];
      assert s[..3] == [s[0], r[0], q[0]];
    }
  }

  /** A character in front adds at most an occurrence at position 0. */
  lemma ConsLacks(c: char, t: string, p: string)
    requires !Contains(t, p) && !OccursAt([c] + t, p, 0)
    ensures !Contains([c] + t, p)
  {
    var u := [c] + t;
    forall i | 1 <= i <= |u| ensures !OccursAt(u, p, i) {
      assert !OccursAt(t, p, i - 1);
      if i + |p| <= |u| {
        assert u[i..i + |p|] == t[i - 1..i - 1 + |p|];
      }
    }
  }

  /** The cleaned text is fence-free and has no surrounding whitespace. */
  lemma CleanFencesClean(s: string)
    ensures !Contains(CleanFences(s), "```")
    ensures CleanFences(s) == [] || (!IsSpace(JavaScript, CleanFences(s)[0]) && !IsSpace(JavaScript, CleanFences(s)[|CleanFences(s)| - 1]))
  {
    NoFenceLeft(s);
    TrimLacks(JavaScript, RemoveFences(s), "```");
  }

  /** Fence-free text passes through the removal unchanged ... */
  lemma {:induction false} RemoveFencesFenceFree(x: string)
    requires !Contains(x, "```")
    ensures RemoveFences(x) == x
    decreases |x|
  {
    if x != [] {
      assert !OccursAt(x, "```", 0);
      assert !StartsWith(x, "```html") by {
        if |x| >= 7 {
          assert x[..3] == x[..7][..3];
        }
      }
      SliceLacks(x, "```", 1, |x|);
      assert x[1..|x|] == x[1..];
      RemoveFencesFenceFree(x[1..]);
    }
  }

  /** ... so cleaning twice is cleaning once. */
  lemma CleanFencesIdempotent(s: string)
    ensures CleanFences(CleanFences(s)) == CleanFences(s)
  {
    CleanFencesClean(s);
    RemoveFencesFenceFree(CleanFences(s));
    TrimIdempotent(JavaScript, RemoveFences(s));
  }

  /** An element of the parsed document. */
  datatype Element = Element(
    tag: string,
    classes: set<string>,
    position: nat,        // 1-based position among its parent's element children
    innerHtml: string,
    textContent: string)

  /**
   * The parsed document: its elements in document order, and whether the
   * parser put it in quirks mode.  `DOMParser` does so for text without a
   * `<!DOCTYPE html>`, which a stripped model reply usually lacks.
   */
  datatype Document = Document(quirks: bool, elements: seq<Element>)

  datatype Selector = ClassSelector(name: string) | NthSection(n: nat)

  /**
   * A class selector matches a class of the element: exactly in a
   * standards-mode document, ASCII case-insensitively in a quirks-mode one.
   */
  predicate HasClass(quirks: bool, classes: set<string>, name: string) {
    if quirks then exists c :: c in classes && Lower(c) == Lower(name)
    else name in classes
  }

  predicate Matches(quirks: bool, e: Element, sel: Selector) {
    match sel
    case ClassSelector(name) => HasClass(quirks, e.classes, name)
    case NthSection(n) => e.tag == "section" && e.position == n
  }

  /** `querySelector`: the first element in document order that matches. */
  function QuerySelector(doc: Document, sel: Selector): (r: Option<nat>)
    ensures r.Some? ==> r.value < |doc.elements| && Matches(doc.quirks, doc.elements[r.value], sel)
    ensures r.Some? ==> forall j :: 0 <= j < r.value ==> !Matches(doc.quirks, doc.elements[j], sel)
    ensures r.None? ==> forall j :: 0 <= j < |doc.elements| ==> !Matches(doc.quirks, doc.elements[j], sel)
  {
    FirstIndex(doc.elements, e => Matches(doc.quirks, e, sel))
  }

  /** `doc.querySelector('.c') || doc.querySelector('section:nth-child(n)')`. */
  function FindSection(doc: Document, className: string, n: nat): Option<Element> {
    match QuerySelector(doc, ClassSelector(className))
    case Some(i) => Some(doc.elements[i])
    case None =>
      match QuerySelector(doc, NthSection(n))
      case Some(i) => Some(doc.elements[i])
      case None => None
  }

  /** An element with the class, in the document's sense of matching, wins over any positional section. */
  lemma ClassWins(doc: Document, className: string, n: nat, k: nat)
    requires k < |doc.elements| && HasClass(doc.quirks, doc.elements[k].classes, className)
    ensures FindSection(doc, className, n).Some?
    ensures HasClass(doc.quirks, FindSection(doc, className, n).value.classes, className)
  {
    assert Matches(doc.quirks, doc.elements[k], ClassSelector(className));
  }

  /** Without any element of the class, the first section at position n is used, if any. */
  lemma PositionFallback(doc: Document, className: string, n: nat)
    requires forall j :: 0 <= j < |doc.elements| ==> !HasClass(doc.quirks, doc.elements[j].classes, className)
    ensures FindSection(doc, className, n).Some? <==>
      exists j :: 0 <= j < |doc.elements| && doc.elements[j].tag == "section" && doc.elements[j].position == n
    ensures FindSection(doc, className, n).Some? ==>
      FindSection(doc, className, n).value.tag == "section" && FindSection(doc, className, n).value.position == n
  {
    if exists j :: 0 <= j < |doc.elements| && doc.elements[j].tag == "section" && doc.elements[j].position == n {
      var j :| 0 <= j < |doc.elements| && doc.elements[j].tag == "section" && doc.elements[j].position == n;
      assert Matches(doc.quirks, doc.elements[j], NthSection(n));
    }
  }

  /**
   * A reply `<div class="Summary">A</div><section>B</section>`: without a
   * DOCTYPE the summary tile's lookup finds the div, while a standards-mode
   * document of the same elements falls back to the section.
   */
  lemma QuirksClassIgnoresCase()
    ensures var elements := [Element("div", {"Summary"}, 1, "A", "A"), Element("section", {}, 2, "B", "B")];
      FindSection(Document(true, elements), "summary", 2) == Some(elements[0]) &&
      FindSection(Document(false, elements), "summary", 2) == Some(elements[1])
  {
    var elements := [Element("div", {"Summary"}, 1, "A", "A"), Element("section", {}, 2, "B", "B")];
    assert Lower("Summary") == Lower("summary") by {
      assert Lower("Summary") == "summary";
      assert Lower("summary") == "summary";
    }
    assert Matches(true, elements[0], ClassSelector("summary"));
    assert !Matches(false, elements[0], ClassSelector("summary"));
    assert !Matches(false, elements[1], ClassSelector("summary"));
    assert Matches(false, elements[1], NthSection(2));
    assert !Matches(false, elements[0], NthSection(2));
  }

  /** The tiles, in the order they are filled; tile k also answers to `section:nth-child(k+1)`. */
  const TileClasses: seq<string> := ["summary", "hazards", "pireps", "sigmets", "conditions", "recommendations"]

  /** `innerHTML || textContent`: the text content stands in for empty markup. */
  function ClassicContent(e: Element): string {
    if e.innerHtml != [] then e.innerHtml else e.textContent
  }

  /** Tile k after the classic page's parse: unchanged when no section was found. */
  function ClassicTile(previous: string, doc: Document, k: nat): string
    requires k < |TileClasses|
  {
    match FindSection(doc, TileClasses[k], k + 1)
    case Some(e) => ClassicContent(e)
    case None => previous
  }

  /** Tile k after the planner page cleared the tiles and parsed the report. */
  function PlannerTile(doc: Document, k: nat): string
    requires k < |TileClasses|
  {
    match FindSection(doc, TileClasses[k], k + 1)
    case Some(e) => e.innerHtml
    case None => ""
  }

  /** Tiles before n hold their classic fill from `doc`; the rest still hold `prev`. */
  predicate ClassicFilled(cur: seq<string>, prev: seq<string>, doc: Document, n: nat)
    requires |cur| == |prev| == |TileClasses| && n <= |TileClasses|
  {
    forall j :: 0 <= j < |TileClasses| ==> cur[j] == if j < n then ClassicTile(prev[j], doc, j) else prev[j]
  }

  /** Filling tile k next extends the filled prefix by one tile. */
  lemma ClassicFillStep(cur: seq<string>, next: seq<string>, prev: seq<string>, doc: Document, k: nat)
    requires |cur| == |prev| == |TileClasses| && k < |TileClasses|
    requires ClassicFilled(cur, prev, doc, k)
    requires next == cur[k := ClassicTile(cur[k], doc, k)]
    ensures |next| == |TileClasses| && ClassicFilled(next, prev, doc, k + 1)
  {
  }

  /** Once all six tiles are filled, each holds its classic fill. */
  lemma ClassicAllFilled(cur: seq<string>, prev: seq<string>, doc: Document)
    requires |cur| == |prev| == |TileClasses|
    requires ClassicFilled(cur, prev, doc, |TileClasses|)
    ensures forall k :: 0 <= k < |TileClasses| ==> cur[k] == ClassicTile(prev[k], doc, k)
  {
  }

  /** One of the six lookup-and-fill blocks of the classic page. */
  method ClassicFillTile(tiles: array<string>, doc: Document, k: nat)
    requires tiles.Length == |TileClasses| && k < |TileClasses|
    modifies tiles
    ensures tiles[..] == old(tiles[..])[k := ClassicTile(old(tiles[k]), doc, k)]
  {
    var section := FindSection(doc, TileClasses[k], k + 1);
    if section.Some? {
      tiles[k] := if section.value.innerHtml != [] then section.value.innerHtml else section.value.textContent;
    }
  }

  /** The six lookup-and-fill blocks of the classic page, in source order. */
  method ClassicFillTiles(tiles: array<string>, doc: Document)
    requires tiles.Length == |TileClasses|
    modifies tiles
    ensures forall k :: 0 <= k < |TileClasses| ==> tiles[k] == ClassicTile(old(tiles[k]), doc, k)
  {
    ghost var prev := tiles[..];
    ghost var cur := prev;
    ClassicFillTile(tiles, doc, 0);
    ClassicFillStep(cur, tiles[..], prev, doc, 0);
    cur := tiles[..];
    ClassicFillTile(tiles, doc, 1);
    ClassicFillStep(cur, tiles[..], prev, doc, 1);
    cur := tiles[..];
    ClassicFillTile(tiles, doc, 2);
    ClassicFillStep(cur, tiles[..], prev, doc, 2);
    cur := tiles[..];
    ClassicFillTile(tiles, doc, 3);
    ClassicFillStep(cur, tiles[..], prev, doc, 3);
    cur := tiles[..];
    ClassicFillTile(tiles, doc, 4);
    ClassicFillStep(cur, tiles[..], prev, doc, 4);
    cur := tiles[..];
    ClassicFillTile(tiles, doc, 5);
    ClassicFillStep(cur, tiles[..], prev, doc, 5);
    ClassicAllFilled(tiles[..], prev, doc);
  }

  /**
   * The classic page's `parseBriefingContent`: clean the fences, parse, and
   * fill the six tiles in order. `parse` stands for the browser's HTML parser.
   */
  method ClassicParseBriefingContent(tiles: array<string>, htmlContent: string, parse: string -> Document)
    requires tiles.Length == |TileClasses|
    modifies tiles
    ensures forall k :: 0 <= k < |TileClasses| ==>
      tiles[k] == ClassicTile(old(tiles[k]), parse(CleanFences(htmlContent)), k)
  {
    var cleanedHtml := Trim(JavaScript, RemoveFences(htmlContent));
    var doc := parse(cleanedHtml);
    ClassicFillTiles(tiles, doc);
  }

  /** The planner page empties every tile before sending the request. */
  method PlannerClearTiles(tiles: array<string>)
    requires tiles.Length == |TileClasses|
    modifies tiles
    ensures forall k :: 0 <= k < tiles.Length ==> tiles[k] == ""
  {
    tiles[0] := "";
    tiles[1] := "";
    tiles[2] := "";
    tiles[3] := "";
    tiles[4] := "";
    tiles[5] := "";
  }

  /** Tile k after the planner page's fill: the section's inner HTML, or what the tile held. */
  function PlannerFill(previous: string, doc: Document, k: nat): string
    requires k < |TileClasses|
  {
    match FindSection(doc, TileClasses[k], k + 1)
    case Some(e) => e.innerHtml
    case None => previous
  }

  /** Tiles before n hold the planner's fill over cleared tiles; the rest are still empty. */
  predicate PlannerFilled(cur: seq<string>, doc: Document, n: nat)
    requires |cur| == |TileClasses| && n <= |TileClasses|
  {
    forall j :: 0 <= j < |TileClasses| ==> cur[j] == if j < n then PlannerTile(doc, j) else ""
  }

  /** Filling tile k next extends the filled prefix by one tile. */
  lemma PlannerFillStep(cur: seq<string>, doc: Document, k: nat)
    requires |cur| == |TileClasses| && k < |TileClasses|
    requires PlannerFilled(cur, doc, k)
    ensures PlannerFilled(cur[k := PlannerFill(cur[k], doc, k)], doc, k + 1)
  {
  }

  /** One of the planner page's lookup-and-fill blocks: inner HTML only. */
  method PlannerFillTile(tiles: array<string>, doc: Document, k: nat)
    requires tiles.Length == |TileClasses| && k < |TileClasses|
    modifies tiles
    ensures tiles[..] == old(tiles[..])[k := PlannerFill(old(tiles[k]), doc, k)]
  {
    var section := FindSection(doc, TileClasses[k], k + 1);
    if section.Some? {
      tiles[k] := section.value.innerHtml;
    }
  }

  /**
   * Clearing before the request and filling after the reply: a section the
   * document lacks leaves its tile empty.
   */
  method PlannerShowBriefing(tiles: array<string>, report: string, parse: string -> Document)
    requires tiles.Length == |TileClasses|
    modifies tiles
    ensures forall k :: 0 <= k < |TileClasses| ==> tiles[k] == PlannerTile(parse(report), k)
  {
    PlannerClearTiles(tiles);
    var doc := parse(report);
    ghost var cur := tiles[..];
    assert PlannerFilled(cur, doc, 0);
    PlannerFillTile(tiles, doc, 0);
    PlannerFillStep(cur, doc, 0);
    cur := tiles[..];
    PlannerFillTile(tiles, doc, 1);
    PlannerFillStep(cur, doc, 1);
    cur := tiles[..];
    PlannerFillTile(tiles, doc, 2);
    PlannerFillStep(cur, doc, 2);
    cur := tiles[..];
    PlannerFillTile(tiles, doc, 3);
    PlannerFillStep(cur, doc, 3);
    cur := tiles[..];
    PlannerFillTile(tiles, doc, 4);
    PlannerFillStep(cur, doc, 4);
    cur := tiles[..];
    PlannerFillTile(tiles, doc, 5);
    PlannerFillStep(cur, doc, 5);
    assert PlannerFilled(tiles[..], doc, 6);
  }

  /** The document the server's prompt asks for: six sections with the tile classes, in tile order. */
  function PromptDocument(quirks: bool, contents: seq<string>): (doc: Document)
    requires |contents| == |TileClasses|
  {
    Document(quirks, seq(|TileClasses|, k requires 0 <= k < |TileClasses| =>
      Element("section", {TileClasses[k]}, k + 1, contents[k], contents[k])))
  }

  /** The tile classes are lower case and stay distinct once lower-cased. */
  lemma TileClassesLower(j: nat, k: nat)
    requires j < |TileClasses| && k < |TileClasses|
    ensures Lower(TileClasses[k]) == TileClasses[k]
    ensures Lower(TileClasses[j]) == Lower(TileClasses[k]) ==> j == k
  {
    assert Lower("summary") == "summary";
    assert Lower("hazards") == "hazards";
    assert Lower("pireps") == "pireps";
    assert Lower("sigmets") == "sigmets";
    assert Lower("conditions") == "conditions";
    assert Lower("recommendations") == "recommendations";
  }

  /** A reply shaped as the prompt asks fills every tile with its own section on both pages, in either mode. */
  lemma PromptShapedReplyFillsTiles(quirks: bool, contents: seq<string>, k: nat)
    requires |contents| == |TileClasses| && k < |TileClasses|
    ensures FindSection(PromptDocument(quirks, contents), TileClasses[k], k + 1) ==
      Some(PromptDocument(quirks, contents).elements[k])
    ensures PlannerTile(PromptDocument(quirks, contents), k) == contents[k]
  {
    var doc := PromptDocument(quirks, contents);
    assert Matches(quirks, doc.elements[k], ClassSelector(TileClasses[k]));
    var r := QuerySelector(doc, ClassSelector(TileClasses[k]));
    assert r.value < |doc.elements|;
    assert doc.elements[r.value].classes == {TileClasses[r.value]};
    TileClassesLower(r.value, k);
  }
}
