/** The toolbar edits of the Markdown editor, as functions on the document text and the
    main selection: wrapping the selection in markers, toggling a prefix at the start of
    the cursor's line, and inserting an uploaded image. */
module MarkdownEditor {
  import opened Wrappers
  import opened Text

  /** The main selection, `from <= to`. */
  datatype Selection = Selection(from: nat, to: nat)

  predicate ValidSelection(doc: string, sel: Selection) {
    sel.from <= sel.to <= |doc|
  }

  /** A document after an edit, with the collapsed selection the edit leaves. */
  datatype Edit = Edit(doc: string, cursor: nat)

  /** `insertText(prefix, suffix, replaceSelection)`: the selection is replaced by itself
      between the two markers. The cursor lands between the markers when nothing was
      selected (and the selection is not being replaced), and after the closing marker
      otherwise. */
  function InsertText(doc: string, sel: Selection, prefix: string, suffix: string,
                      replaceSelection: bool): (r: Edit)
    requires ValidSelection(doc, sel)
    ensures var n := sel.to - sel.from;
      |r.doc| == |doc| + |prefix| + |suffix|
      && r.doc[..sel.from] == doc[..sel.from]
      && r.doc[sel.from..sel.from + |prefix|] == prefix
      && r.doc[sel.from + |prefix|..sel.from + |prefix| + n] == doc[sel.from..sel.to]
      && r.doc[sel.from + |prefix| + n..sel.from + |prefix| + n + |suffix|] == suffix
      && r.doc[sel.from + |prefix| + n + |suffix|..] == doc[sel.to..]
    ensures r.cursor <= |r.doc|
    ensures sel.from == sel.to && !replaceSelection ==>
      r.doc[..r.cursor] == doc[..sel.from] + prefix && r.doc[r.cursor..] == suffix + doc[sel.to..]
    ensures sel.from < sel.to || replaceSelection ==>
      r.doc[..r.cursor] == doc[..sel.from] + prefix + doc[sel.from..sel.to] + suffix
    ensures sel.from < sel.to || replaceSelection ==> r.doc[r.cursor..] == doc[sel.to..]
  {
    var selected := doc[sel.from..sel.to];
    var text := prefix + selected + suffix;
    var cursor := if replaceSelection then sel.from + |prefix| + |selected| + |suffix|
                  else if sel.from == sel.to then sel.from + |prefix|
                  else sel.from + |text|;
    var d := doc[..sel.from] + text + doc[sel.to..];
    assert d[..cursor] == doc[..sel.from] + (if cursor == sel.from + |prefix| then prefix else text);
    assert doc[..sel.from] + text == doc[..sel.from] + prefix + selected + suffix;
    Edit(d, cursor)
  }

  /** Removing the two markers from the edited document gives the original back. */
  lemma InsertTextUnwraps(doc: string, sel: Selection, prefix: string, suffix: string,
                          replaceSelection: bool)
    requires ValidSelection(doc, sel)
    ensures var d := InsertText(doc, sel, prefix, suffix, replaceSelection).doc;
      var n := sel.to - sel.from;
      d[..sel.from] + d[sel.from + |prefix|..sel.from + |prefix| + n]
        + d[sel.from + |prefix| + n + |suffix|..] == doc
  {
    var d := InsertText(doc, sel, prefix, suffix, replaceSelection).doc;
    var n := sel.to - sel.from;
    var a, b := sel.from + |prefix|, sel.from + |prefix| + n + |suffix|;
    assert d[..sel.from] == doc[..sel.from];
    assert d[a..a + n] == doc[sel.from..sel.to];
    assert d[b..] == doc[sel.to..];
    Reassemble(doc, sel.from, sel.to);
  }

  /** The start of the line holding `pos`. */
  function LineStart(doc: string, pos: nat): (s: nat)
    requires pos <= |doc|
    ensures s <= pos && (s == 0 || doc[s - 1] == '\n')
    ensures forall k :: s <= k < pos ==> doc[k] != '\n'
  {
    if pos == 0 || doc[pos - 1] == '\n' then pos else LineStart(doc, pos - 1)
  }

  /** The end of the line holding `pos`: the next line feed, or the end of the text. */
  function LineEnd(doc: string, pos: nat): (e: nat)
    requires pos <= |doc|
    ensures pos <= e <= |doc| && (e == |doc| || doc[e] == '\n')
    ensures forall k :: pos <= k < e ==> doc[k] != '\n'
    decreases |doc| - pos
  {
    if pos == |doc| || doc[pos] == '\n' then pos else LineEnd(doc, pos + 1)
  }

  /** A line start is determined by any position of the line. */
  lemma {:induction false} LineStartIs(doc: string, pos: nat, s: nat)
    requires s <= pos <= |doc| && (s == 0 || doc[s - 1] == '\n')
    requires forall k :: s <= k < pos ==> doc[k] != '\n'
    ensures LineStart(doc, pos) == s
    decreases pos
  {
    if pos > s {
      LineStartIs(doc, pos - 1, s);
    }
  }

  lemma {:induction false} LineEndIs(doc: string, pos: nat, e: nat)
    requires pos <= e <= |doc| && (e == |doc| || doc[e] == '\n')
    requires forall k :: pos <= k < e ==> doc[k] != '\n'
    ensures LineEnd(doc, pos) == e
    decreases e - pos
  {
    if pos < e {
      LineEndIs(doc, pos + 1, e);
    }
  }

  /** The number of leading '#' characters. */
  function HashRun(s: string): (n: nat)
    ensures n <= |s| && (n == |s| || s[n] != '#')
    ensures forall k :: 0 <= k < n ==> s[k] == '#'
  {
    if s == [] || s[0] != '#' then 0 else 1 + HashRun(s[1..])
  }

  /** The length of the match of `/^#{1,6}\s/`: one to six '#' and a whitespace
      character. The run of '#' must end right before the whitespace, since a shorter run
      is followed by another '#'. */
  function HeadingMatch(line: string): (m: Option<nat>)
    ensures m.Some? ==>
      (2 <= m.value <= 7 && m.value <= |line|
       && (forall k :: 0 <= k < m.value - 1 ==> line[k] == '#') && IsSpace(line[m.value - 1]))
    ensures m.None? ==>
      forall j :: (1 <= j <= 6 && j < |line| && (forall k :: 0 <= k < j ==> line[k] == '#')) ==> !IsSpace(line[j])
  {
    var n := HashRun(line);
    if 1 <= n <= 6 && n < |line| && IsSpace(line[n]) then Some(n + 1) else None
  }

  /** The new text of the cursor's line: the prefix removed when the line starts with it;
      a heading marker replaced when the line is a heading and the prefix is one; the
      prefix added otherwise. */
  function LineEdit(line: string, prefix: string): string {
    if StartsWith(line, prefix) then line[|prefix|..]
    else if HeadingMatch(line).Some? && StartsWith(prefix, "#") then prefix + line[HeadingMatch(line).value..]
    else prefix + line
  }

  /** The document with the line holding `pos` replaced by `f` of it. */
  function EditLine(doc: string, pos: nat, f: string -> string): string
    requires pos <= |doc|
  {
    var s, e := LineStart(doc, pos), LineEnd(doc, pos);
    doc[..s] + f(doc[s..e]) + doc[e..]
  }

  function LineEditBy(prefix: string): string -> string {
    (line: string) => LineEdit(line, prefix)
  }

  /** `insertAtStartOfLine(prefix)`. */
  function InsertAtStartOfLine(doc: string, from: nat, prefix: string): string
    requires from <= |doc|
  {
    EditLine(doc, from, LineEditBy(prefix))
  }

  /** Only the cursor's line changes, and it becomes its `LineEdit`. */
  lemma InsertAtStartOfLineEdits(doc: string, from: nat, prefix: string)
    requires from <= |doc|
    ensures var r, s, e := InsertAtStartOfLine(doc, from, prefix), LineStart(doc, from), LineEnd(doc, from);
      |r| == s + |LineEdit(doc[s..e], prefix)| + (|doc| - e)
      && r[..s] == doc[..s]
      && r[s..s + |LineEdit(doc[s..e], prefix)|] == LineEdit(doc[s..e], prefix)
      && r[s + |LineEdit(doc[s..e], prefix)|..] == doc[e..]
  {
    var s, e := LineStart(doc, from), LineEnd(doc, from);
    var r := InsertAtStartOfLine(doc, from, prefix);
    assert r == doc[..s] + LineEdit(doc[s..e], prefix) + doc[e..];
  }

  /** Pressing a line button twice on a line it does not already mark, and that is not
      a heading being re-levelled, gives the original line back. */
  lemma LineEditToggles(line: string, prefix: string)
    requires !StartsWith(line, prefix)
    requires !(HeadingMatch(line).Some? && StartsWith(prefix, "#"))
    ensures LineEdit(LineEdit(line, prefix), prefix) == line
  {
    var once := prefix + line;
    assert once[..|prefix|] == prefix;
    assert once[|prefix|..] == line;
  }

  /** Replacing a whole line by text without a line feed makes that text the line of
      every position in it. */
  lemma ReplacedLine(doc: string, s: nat, e: nat, line: string, pos: nat)
    requires s <= e <= |doc| && (s == 0 || doc[s - 1] == '\n') && (e == |doc| || doc[e] == '\n')
    requires forall k :: 0 <= k < |line| ==> line[k] != '\n'
    requires s <= pos <= s + |line|
    ensures var d := doc[..s] + line + doc[e..];
      LineStart(d, pos) == s && LineEnd(d, pos) == s + |line| && d[s..s + |line|] == line
  {
    var d := doc[..s] + line + doc[e..];
    var e2 := s + |line|;
    forall k | s <= k < e2 ensures d[k] != '\n' {
      assert d[k] == line[k - s];
    }
    assert s == 0 || d[s - 1] == doc[s - 1];
    assert e2 == |d| || d[e2] == doc[e];
    LineStartIs(d, pos, s);
    LineEndIs(d, pos, e2);
  }

  /** An edit of one line that undoes itself, applied twice at positions of the same
      line, gives the document back. */
  lemma EditLineTwice(doc: string, pos: nat, again: nat, f: string -> string)
    requires pos <= |doc|
    requires var s, e := LineStart(doc, pos), LineEnd(doc, pos);
      (forall k :: 0 <= k < |f(doc[s..e])| ==> f(doc[s..e])[k] != '\n')
      && f(f(doc[s..e])) == doc[s..e]
      && s <= again <= s + |f(doc[s..e])|
    ensures EditLine(EditLine(doc, pos, f), again, f) == doc
  {
    var s, e := LineStart(doc, pos), LineEnd(doc, pos);
    var line := doc[s..e];
    var once := f(line);
    assert forall k :: 0 <= k < |once| ==> once[k] != '\n';
    assert s == 0 || doc[s - 1] == '\n';
    assert e == |doc| || doc[e] == '\n';
    ReplacedLine(doc, s, e, once, again);
    var d := doc[..s] + once + doc[e..];
    assert EditLine(doc, pos, f) == d;
    assert EditLine(d, again, f) == d[..s] + line + d[s + |once|..];
    BackTogether(doc, s, e, once);
  }

  /** Putting the old line back in place of its replacement gives the document back. */
  lemma BackTogether(doc: string, s: nat, e: nat, once: string)
    requires s <= e <= |doc|
    ensures var d := doc[..s] + once + doc[e..];
      |d| >= s + |once| && d[..s] + doc[s..e] + d[s + |once|..] == doc
  {
    var d := doc[..s] + once + doc[e..];
    assert d[s + |once|..] == doc[e..] && d[..s] == doc[..s];
    Reassemble(doc, s, e);
  }

  /** The same on the document: after the first press, any position of the edited line
      (in particular the cursor) toggles the prefix off again. */
  lemma InsertAtStartOfLineToggles(doc: string, from: nat, prefix: string, again: nat)
    requires from <= |doc|
    requires forall k :: 0 <= k < |prefix| ==> prefix[k] != '\n'
    requires var s, e := LineStart(doc, from), LineEnd(doc, from);
      !StartsWith(doc[s..e], prefix) && !(HeadingMatch(doc[s..e]).Some? && StartsWith(prefix, "#"))
    requires LineStart(doc, from) <= again <= LineEnd(doc, from) + |prefix|
    ensures InsertAtStartOfLine(InsertAtStartOfLine(doc, from, prefix), again, prefix) == doc
  {
    var s, e := LineStart(doc, from), LineEnd(doc, from);
    var line := doc[s..e];
    var f := LineEditBy(prefix);
    assert f(line) == prefix + line;
    NoLineFeed(doc, s, e);
    NoLineFeedConcat(prefix, line);
    LineEditToggles(line, prefix);
    EditLineTwice(doc, from, again, f);
  }

  /** A line holds no line feed. */
  lemma NoLineFeed(doc: string, s: nat, e: nat)
    requires s <= e <= |doc| && forall k :: s <= k < e ==> doc[k] != '\n'
    ensures forall k :: 0 <= k < e - s ==> doc[s..e][k] != '\n'
  {
  }

  lemma NoLineFeedConcat(a: string, b: string)
    requires forall k :: 0 <= k < |a| ==> a[k] != '\n'
    requires forall k :: 0 <= k < |b| ==> b[k] != '\n'
    ensures forall k :: 0 <= k < |a + b| ==> (a + b)[k] != '\n'
  {
    forall k | 0 <= k < |a + b| ensures (a + b)[k] != '\n' {
      if k >= |a| {
        assert (a + b)[k] == b[k - |a|];
      }
    }
  }

  lemma Reassemble(doc: string, s: nat, e: nat)
    requires s <= e <= |doc|
    ensures doc[..s] + doc[s..e] + doc[e..] == doc
  {
  }

  /** `'#'` repeated `n` times. */
  function Hashes(n: nat): (h: string)
    ensures |h| == n && forall k :: 0 <= k < n ==> h[k] == '#'
  {
    seq(n, k => '#')
  }

  /** Heading buttons re-level a heading: on a line with a heading marker of `j` hashes,
      the button for level `n` removes the marker when it is the same one, and otherwise
      puts its own marker in place of the old one. */
  lemma HeadingButtonsRelevel(n: nat, j: nat, c: char, rest: string)
    requires 1 <= n <= 6 && 1 <= j <= 6 && IsSpace(c)
    ensures var line := Hashes(j) + [c] + rest;
      LineEdit(line, Hashes(n) + " ") == if j == n && c == ' ' then rest else Hashes(n) + " " + rest
  {
    var line := Hashes(j) + [c] + rest;
    var p := Hashes(n) + " ";
    assert HashRun(line) == j by {
      assert line[..j] == Hashes(j);
      assert line[j] == c;
      HashRunIs(line, j);
    }
    assert p[0] == '#';
    assert StartsWith(p, "#");
    if j == n && c == ' ' {
      assert line[..|p|] == p;
      assert line[|p|..] == rest;
    } else {
      if j < n {
        assert line[j] != p[j];
      } else if j > n {
        assert line[n] != p[n];
      } else {
        assert line[n] != p[n];
      }
      assert !StartsWith(line, p);
      assert line[j + 1..] == rest;
    }
  }

  lemma {:induction false} HashRunIs(s: string, j: nat)
    requires j < |s| && s[j] != '#' && forall k :: 0 <= k < j ==> s[k] == '#'
    ensures HashRun(s) == j
    decreases j
  {
    if j > 0 {
      HashRunIs(s[1..], j - 1);
    }
  }

  /** The toolbar buttons. */
  datatype Tool =
    | Bold | Italic | Code | CodeBlock | Link | HorizontalRule
    | Blockquote | UnorderedList | OrderedList | Heading1 | Heading2 | Heading3

  /** What a button inserts: markers around the selection, or a prefix at the line start. */
  datatype Marker = Wrap(prefix: string, suffix: string) | LinePrefix(prefix: string)

  /** The toolbar's marker table. The link button uses the URL the prompt returns and does
      nothing when that is empty or cancelled. */
  function MarkerOf(tool: Tool, url: Option<string>): (m: Option<Marker>)
    ensures m.None? <==> tool == Link && !Truthy(url)
    ensures tool == Link && Truthy(url) ==> m == Some(Wrap("[", "](" + url.value + ")"))
    ensures tool in {Heading1, Heading2, Heading3} ==>
      m.Some? && m.value.LinePrefix? && StartsWith(m.value.prefix, "#")
  {
    match tool
    case Bold => Some(Wrap("**", "**"))
    case Italic => Some(Wrap("*", "*"))
    case Code => Some(Wrap("`", "`"))
    case CodeBlock => Some(Wrap("```\n", "\n```"))
    case Link => if Truthy(url) then Some(Wrap("[", "](" + url.value + ")")) else None
    case HorizontalRule => Some(Wrap("\n---\n", ""))
    case Blockquote => Some(LinePrefix("> "))
    case UnorderedList => Some(LinePrefix("- "))
    case OrderedList => Some(LinePrefix("1. "))
    case Heading1 => Some(LinePrefix(Hashes(1) + " "))
    case Heading2 => Some(LinePrefix(Hashes(2) + " "))
    case Heading3 => Some(LinePrefix(Hashes(3) + " "))
  }

  /** A button press on the document and selection; nothing changes when the button has
      no marker. The cursor after a line edit is not tracked. */
  function ApplyTool(doc: string, sel: Selection, tool: Tool, url: Option<string>): (r: string)
    requires ValidSelection(doc, sel)
    ensures MarkerOf(tool, url).None? ==> r == doc
    ensures MarkerOf(tool, url).Some? && MarkerOf(tool, url).value.Wrap? ==>
      r == InsertText(doc, sel, MarkerOf(tool, url).value.prefix, MarkerOf(tool, url).value.suffix, false).doc
    ensures MarkerOf(tool, url).Some? && MarkerOf(tool, url).value.LinePrefix? ==>
      r == InsertAtStartOfLine(doc, sel.from, MarkerOf(tool, url).value.prefix)
  {
    match MarkerOf(tool, url)
    case None => doc
    case Some(Wrap(p, s)) => InsertText(doc, sel, p, s, false).doc
    case Some(LinePrefix(p)) => InsertAtStartOfLine(doc, sel.from, p)
  }

  /** The keyboard shortcuts: Ctrl or Cmd with b, i, k or e. */
  function Shortcut(ctrlOrMeta: bool, key: string): (t: Option<Tool>)
    ensures t.Some? <==> ctrlOrMeta && (key == "b" || key == "i" || key == "k" || key == "e")
    ensures t == Some(Bold) <==> ctrlOrMeta && key == "b"
    ensures t == Some(Italic) <==> ctrlOrMeta && key == "i"
    ensures t == Some(Link) <==> ctrlOrMeta && key == "k"
    ensures t == Some(Code) <==> ctrlOrMeta && key == "e"
  {
    if !ctrlOrMeta then None
    else if key == "b" then Some(Bold)
    else if key == "i" then Some(Italic)
    else if key == "k" then Some(Link)
    else if key == "e" then Some(Code)
    else None
  }

  /** `![name](url)`. */
  function ImageMarkdown(name: string, url: string): string {
    "![" + name + "](" + url + ")"
  }

  /** After an upload: inserted at the selection start with the cursor after it when an
      editor view exists; otherwise appended to the value on a new line, or the whole
      value when it was empty. */
  function InsertImage(doc: string, view: Option<nat>, name: string, url: string): (r: Edit)
    requires view.Some? ==> view.value <= |doc|
    ensures var md := ImageMarkdown(name, url);
      view.Some? ==>
        (r.doc == doc[..view.value] + md + doc[view.value..]
         && r.cursor == view.value + |md| && r.doc[..r.cursor] == doc[..view.value] + md)
    ensures view.None? && doc != "" ==> r.doc == doc + "\n" + ImageMarkdown(name, url)
    ensures view.None? && doc == "" ==> r.doc == ImageMarkdown(name, url)
  {
    var md := ImageMarkdown(name, url);
    match view
    case Some(from) =>
      var d := doc[..from] + md + doc[from..];
      assert d[..from + |md|] == doc[..from] + md;
      Edit(d, from + |md|)
    case None => Edit(if doc != "" then doc + "\n" + md else md, 0)
  }
}
