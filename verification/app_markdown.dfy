/**
 * `_md_to_safe` of the web front end: the small Markdown dialect of the
 * generated guidance turned into HTML. Bold runs become `<strong>`, `###`
 * and `##` lines become headings, runs of `- ` lines become one `<ul>`
 * list, and every other non-blank line becomes a paragraph.
 */
module AppMarkdown {
  import opened Optional
  import opened Text

  // ------------------------------------------------------------------
  // Bold: re.sub(r'\*\*(.+?)\*\*', r'<strong>\1</strong>', text)
  // ------------------------------------------------------------------

  /** `s` has `**` at position `k`. */
  predicate StarsAt(s: string, k: nat) {
    k + 1 < |s| && s[k] == '*' && s[k + 1] == '*'
  }

  /** The `**` at `k` can end a bold run whose text goes on from `j`: no
      newline lies in between, since `.` does not match one. */
  predicate Closes(s: string, j: nat, k: nat) {
    j <= k && StarsAt(s, k) && forall m :: j <= m < k ==> s[m] != '\n'
  }

  /** Where the lazy `.+?` stops when it has reached `j`: at the first `**`,
      unless a newline comes before it. */
  function CloseFrom(s: string, j: nat): (r: Option<nat>)
    requires j <= |s|
    ensures r.Some? ==> Closes(s, j, r.value) && forall m :: j <= m < r.value ==> !StarsAt(s, m)
    ensures r.None? ==> forall k :: !Closes(s, j, k)
    decreases |s| - j
  {
    if j + 1 >= |s| then None
    else if StarsAt(s, j) then Some(j)
    else if s[j] == '\n' then None
    else
      var r := CloseFrom(s, j + 1);
      assert forall k :: Closes(s, j, k) ==> k == j || Closes(s, j + 1, k);
      r
  }

  /** A bold run starts at `i`: `**`, a character other than a newline,
      and a closing `**` on the same line. */
  predicate OpensAt(s: string, i: nat) {
    StarsAt(s, i) && i + 2 < |s| && s[i + 2] != '\n' && CloseFrom(s, i + 3).Some?
  }

  /** The substitution applied to `s[i..]`: the scan tries a match at each
      position, and after a match goes on behind its closing `**`. */
  function Bold(s: string, i: nat): string
    requires i <= |s|
    decreases |s| - i
  {
    if i == |s| then ""
    else if OpensAt(s, i) then
      var k := CloseFrom(s, i + 3).value;
      "<strong>" + s[i + 2..k] + "</strong>" + Bold(s, k + 2)
    else [s[i]] + Bold(s, i + 1)
  }

  /** Text without `**` is left alone. */
  lemma {:induction false} BoldWithoutStars(s: string, i: nat)
    requires i <= |s|
    requires forall k :: i <= k < |s| ==> !StarsAt(s, k)
    ensures Bold(s, i) == s[i..]
    decreases |s| - i
  {
    if i < |s| {
      BoldWithoutStars(s, i + 1);
      assert s[i..] == [s[i]] + s[i + 1..];
    }
  }

  /** How many newlines `s` holds. */
  function Newlines(s: string): nat
    decreases |s|
  {
    if |s| == 0 then 0 else (if s[0] == '\n' then 1 else 0) + Newlines(s[1..])
  }

  lemma {:induction false} NewlinesAppend(a: string, b: string)
    ensures Newlines(a + b) == Newlines(a) + Newlines(b)
    decreases |a|
  {
    if |a| > 0 {
      assert (a + b)[0] == a[0];
      assert (a + b)[1..] == a[1..] + b;
      NewlinesAppend(a[1..], b);
      assert Newlines(a + b) == (if a[0] == '\n' then 1 else 0) + Newlines(a[1..] + b);
    } else {
      assert a + b == b;
    }
  }

  lemma {:induction false} NoNewlines(s: string)
    requires forall k :: 0 <= k < |s| ==> s[k] != '\n'
    ensures Newlines(s) == 0
    decreases |s|
  {
    if |s| > 0 {
      assert forall k :: 0 <= k < |s| - 1 ==> s[1..][k] == s[k + 1];
      NoNewlines(s[1..]);
    }
  }

  /** A bold run lies within one line, so the substitution keeps every
      newline: the text has as many lines before as after. */
  lemma {:induction false} BoldKeepsNewlines(s: string, i: nat)
    requires i <= |s|
    ensures Newlines(Bold(s, i)) == Newlines(s[i..])
    decreases |s| - i
  {
    if i < |s| {
      if OpensAt(s, i) {
        var k := CloseFrom(s, i + 3).value;
        BoldKeepsNewlines(s, k + 2);
        BoldRunNewlines(s, i, k);
      } else {
        BoldKeepsNewlines(s, i + 1);
        PlainNewlines(s, i);
      }
    }
  }

  /** A character that opens no bold run is copied, newline or not. */
  lemma PlainNewlines(s: string, i: nat)
    requires i < |s| && !OpensAt(s, i)
    requires Newlines(Bold(s, i + 1)) == Newlines(s[i + 1..])
    ensures Newlines(Bold(s, i)) == Newlines(s[i..])
  {
    NewlinesAppend([s[i]], Bold(s, i + 1));
    assert s[i..] == [s[i]] + s[i + 1..];
    NewlinesAppend([s[i]], s[i + 1..]);
  }

  /** One bold run: the substitution keeps the newlines behind it. */
  lemma BoldRunNewlines(s: string, i: nat, k: nat)
    requires OpensAt(s, i) && k == CloseFrom(s, i + 3).value
    requires Newlines(Bold(s, k + 2)) == Newlines(s[k + 2..])
    ensures Newlines(Bold(s, i)) == Newlines(s[i..])
  {
    RunWithoutNewlines(s, i, k);
    ReplacedRunNewlines(s, i, k);
    SourceRunNewlines(s, i, k);
  }

  lemma ReplacedRunNewlines(s: string, i: nat, k: nat)
    requires OpensAt(s, i) && k == CloseFrom(s, i + 3).value
    requires Newlines("<strong>" + s[i + 2..k] + "</strong>") == 0
    ensures Newlines(Bold(s, i)) == Newlines(Bold(s, k + 2))
  {
    var tag := "<strong>" + s[i + 2..k] + "</strong>";
    assert Bold(s, i) == tag + Bold(s, k + 2);
    NewlinesAppend(tag, Bold(s, k + 2));
  }

  lemma SourceRunNewlines(s: string, i: nat, k: nat)
    requires i <= k + 2 <= |s|
    requires Newlines(s[i..k + 2]) == 0
    ensures Newlines(s[i..]) == Newlines(s[k + 2..])
  {
    assert s[i..] == s[i..k + 2] + s[k + 2..];
    NewlinesAppend(s[i..k + 2], s[k + 2..]);
  }

  /** Neither a bold run nor its replacement holds a newline. */
  lemma RunWithoutNewlines(s: string, i: nat, k: nat)
    requires OpensAt(s, i) && k == CloseFrom(s, i + 3).value
    ensures Newlines(s[i..k + 2]) == 0
    ensures Newlines("<strong>" + s[i + 2..k] + "</strong>") == 0
  {
    var inner := s[i + 2..k];
    assert forall m :: 0 <= m < |inner| ==> inner[m] == s[i + 2 + m];
    NoNewlines("<strong>" + inner + "</strong>");
    var run := s[i..k + 2];
    assert forall m :: 0 <= m < |run| ==> run[m] == s[i + m];
    NoNewlines(run);
  }

  /** Splitting at newlines gives one piece more than there are newlines. */
  lemma {:induction false} NewlinePieces(s: string)
    ensures |Split(s, '\n')| == Newlines(s) + 1
    decreases |s|
  {
    var i := IndexOf(s, '\n');
    if i == |s| {
      NoNewlines(s);
    } else {
      NewlinePieces(s[i + 1..]);
      assert forall k :: 0 <= k < i ==> s[..i][k] == s[k];
      NoNewlines(s[..i]);
      assert s == s[..i] + (['\n'] + s[i + 1..]);
      NewlinesAppend(s[..i], ['\n'] + s[i + 1..]);
      NewlinesAppend(['\n'], s[i + 1..]);
    }
  }

  // ------------------------------------------------------------------
  // Headings: re.sub(r'^### (.+)$', ...) and re.sub(r'^## (.+)$', ...)
  // ------------------------------------------------------------------

  /** Both substitutions are anchored to whole lines, so they act line by
      line: a line opening with `### ` or `## ` and some text becomes an
      `<h3>` or `<h2>` element around that text. */
  function Heading(line: string): string {
    if StartsWith(line, "### ") && |line| > 4 then "<h3>" + line[4..] + "</h3>"
    else if StartsWith(line, "## ") && |line| > 3 then "<h2>" + line[3..] + "</h2>"
    else line
  }

  /** A heading line's element opens with `<h`, so the list pass below keeps
      it as it is instead of wrapping it in a paragraph. */
  lemma HeadingOpensTag(line: string)
    requires (StartsWith(line, "### ") && |line| > 4) || (StartsWith(line, "## ") && |line| > 3)
    ensures StartsWith(Heading(line), "<h")
    ensures Heading(line)[2] == (if StartsWith(line, "### ") then '3' else '2')
  {
    if StartsWith(line, "### ") {
      assert line[2] == '#';
      assert Heading(line) == "<h3>" + line[4..] + "</h3>";
    } else {
      assert Heading(line) == "<h2>" + line[3..] + "</h2>";
    }
  }

  // ------------------------------------------------------------------
  // The list pass
  // ------------------------------------------------------------------

  /** What a stripped line that is not a bullet adds: nothing when blank,
      itself when it opens with `<h`, and a paragraph otherwise. */
  function Paragraph(s: string): seq<string> {
    if s == "" then []
    else if StartsWith(s, "<h") then [s]
    else ["<p>" + s + "</p>"]
  }

  /** The item a bullet line `- text` adds. */
  function ListItem(s: string): string
    requires StartsWith(s, "- ")
  {
    "<li>" + s[2..] + "</li>"
  }

  /** What the loop appends to `result` for `lines`, given whether a list
      is open when it reaches them; the list is closed at the end. */
  function Render(lines: seq<string>, inList: bool): seq<string>
    decreases |lines|
  {
    if |lines| == 0 then (if inList then ["</ul>"] else [])
    else
      var s := Strip(lines[0]);
      if StartsWith(s, "- ") then
        (if inList then [] else ["<ul>"]) + ([ListItem(s)] + Render(lines[1..], true))
      else
        (if inList then ["</ul>"] else []) + (Paragraph(s) + Render(lines[1..], false))
  }

  /** The lines of the text after the bold and heading substitutions. */
  function Lines(text: string): (r: seq<string>)
    ensures |r| == |Split(Bold(text, 0), '\n')|
  {
    var pieces := Split(Bold(text, 0), '\n');
    seq(|pieces|, i requires 0 <= i < |pieces| => Heading(pieces[i]))
  }

  /** The `result` list of `_md_to_safe(text)`. */
  function Items(text: string): seq<string> {
    Render(Lines(text), false)
  }

  /** `_md_to_safe(text)`. */
  function MdToSafe(text: string): string {
    Join(Items(text), "\n")
  }

  // ------------------------------------------------------------------
  // The list structure
  // ------------------------------------------------------------------

  /** Where the items read so far have left the list structure. */
  datatype Place = Outside | Opened | Inside

  /** The items nest properly: `<ul>` only outside a list, so lists never
      nest; an `<li>` item only inside one; `</ul>` only after at least one
      item, so no list is empty; everything else outside lists; and no list
      left open at the end. */
  predicate Nested(items: seq<string>, at: Place)
    decreases |items|
  {
    if |items| == 0 then at == Outside
    else
      var x := items[0];
      if x == "<ul>" then at == Outside && Nested(items[1..], Opened)
      else if x == "</ul>" then at == Inside && Nested(items[1..], Outside)
      else if StartsWith(x, "<li>") then at != Outside && Nested(items[1..], Inside)
      else at == Outside && Nested(items[1..], Outside)
  }

  lemma NestedCons(x: string, rest: seq<string>, at: Place)
    ensures Nested([x] + rest, at) ==
      if x == "<ul>" then at == Outside && Nested(rest, Opened)
      else if x == "</ul>" then at == Inside && Nested(rest, Outside)
      else if StartsWith(x, "<li>") then at != Outside && Nested(rest, Inside)
      else at == Outside && Nested(rest, Outside)
  {
    assert ([x] + rest)[0] == x && ([x] + rest)[1..] == rest;
  }

  /** A paragraph item is neither a list tag nor a list item. */
  lemma ParagraphIsPlain(s: string)
    ensures forall k :: 0 <= k < |Paragraph(s)| ==>
      Paragraph(s)[k] != "<ul>" && Paragraph(s)[k] != "</ul>" && !StartsWith(Paragraph(s)[k], "<li>")
  {
    if s != "" {
      var x := Paragraph(s)[0];
      assert x[1] == (if StartsWith(s, "<h") then 'h' else 'p');
    }
  }

  lemma ListItemIsItem(s: string)
    requires StartsWith(s, "- ")
    ensures ListItem(s) != "<ul>" && ListItem(s) != "</ul>" && StartsWith(ListItem(s), "<li>")
  {
    assert ListItem(s)[1] == 'l';
  }

  /** Rendering from the state the loop is in gives properly nested items. */
  lemma {:induction false} RenderNested(lines: seq<string>, inList: bool)
    ensures Nested(Render(lines, inList), if inList then Inside else Outside)
    decreases |lines|
  {
    if |lines| == 0 {
      if inList {
        NestedCons("</ul>", [], Inside);
      }
    } else {
      var s := Strip(lines[0]);
      if StartsWith(s, "- ") {
        var rest := Render(lines[1..], true);
        RenderNested(lines[1..], true);
        ListItemIsItem(s);
        NestedCons(ListItem(s), rest, if inList then Inside else Opened);
        if !inList {
          NestedCons("<ul>", [ListItem(s)] + rest, Outside);
        } else {
          assert [] + ([ListItem(s)] + rest) == [ListItem(s)] + rest;
        }
      } else {
        var rest := Render(lines[1..], false);
        RenderNested(lines[1..], false);
        ParagraphIsPlain(s);
        var tail := Paragraph(s) + rest;
        if Paragraph(s) != [] {
          NestedCons(Paragraph(s)[0], rest, Outside);
          assert tail == [Paragraph(s)[0]] + rest;
        } else {
          assert tail == rest;
        }
        if inList {
          NestedCons("</ul>", tail, Inside);
        } else {
          assert [] + tail == tail;
        }
      }
    }
  }

  /** The bold substitution keeps the line structure: the list pass sees
      one line per line of the input. */
  lemma LinesCount(text: string)
    ensures |Lines(text)| == Newlines(text) + 1
  {
    BoldKeepsNewlines(text, 0);
    NewlinePieces(Bold(text, 0));
    assert text[0..] == text;
  }

  /** The items of `_md_to_safe` nest properly. */
  lemma ItemsNested(text: string)
    ensures Nested(Items(text), Outside)
  {
    RenderNested(Lines(text), false);
  }

  // ------------------------------------------------------------------
  // The content
  // ------------------------------------------------------------------

  /** The line an item stands for: list tags stand for none, a list item for
      its bullet line, a paragraph for its text, anything else for itself. */
  function UnwrapOne(x: string): seq<string> {
    if x == "<ul>" || x == "</ul>" then []
    else if StartsWith(x, "<li>") && |x| >= 9 then ["- " + x[4..|x| - 5]]
    else if StartsWith(x, "<p>") && |x| >= 7 then [x[3..|x| - 4]]
    else [x]
  }

  function Unwrap(items: seq<string>): seq<string>
    decreases |items|
  {
    if |items| == 0 then [] else UnwrapOne(items[0]) + Unwrap(items[1..])
  }

  /** The stripped lines that are not blank. */
  function Contents(lines: seq<string>): seq<string>
    decreases |lines|
  {
    if |lines| == 0 then []
    else (if Strip(lines[0]) == "" then [] else [Strip(lines[0])]) + Contents(lines[1..])
  }

  lemma {:induction false} UnwrapAppend(a: seq<string>, b: seq<string>)
    ensures Unwrap(a + b) == Unwrap(a) + Unwrap(b)
    decreases |a|
  {
    if |a| > 0 {
      assert (a + b)[0] == a[0];
      assert (a + b)[1..] == a[1..] + b;
      UnwrapAppend(a[1..], b);
      assert Unwrap(a + b) == UnwrapOne(a[0]) + Unwrap(a[1..] + b);
      assert UnwrapOne(a[0]) + (Unwrap(a[1..]) + Unwrap(b)) == (UnwrapOne(a[0]) + Unwrap(a[1..])) + Unwrap(b);
    } else {
      assert a + b == b;
    }
  }

  lemma UnwrapSingle(x: string)
    ensures Unwrap([x]) == UnwrapOne(x)
  {
    assert [x][1..] == [];
  }

  /** A bullet's item stands for the stripped bullet line. */
  lemma UnwrapListItem(s: string)
    requires StartsWith(s, "- ")
    ensures UnwrapOne(ListItem(s)) == [s]
  {
    var x := ListItem(s);
    assert x[1] == 'l';
    assert x[4..|x| - 5] == s[2..];
    assert s == "- " + s[2..];
  }

  /** A non-bullet line's item stands for the stripped line, unless it is
      blank. */
  lemma UnwrapParagraph(s: string)
    ensures Unwrap(Paragraph(s)) == if s == "" then [] else [s]
  {
    if s != "" {
      var x := Paragraph(s)[0];
      UnwrapSingle(x);
      if StartsWith(s, "<h") {
        assert x[1] == 'h';
      } else {
        assert x[1] == 'p';
        assert x[3..|x| - 4] == s;
      }
    }
  }

  /** Reading the items back gives every non-blank line, stripped, in
      order: nothing is dropped but blank lines, and nothing is added but
      tags. */
  lemma {:induction false} RenderContents(lines: seq<string>, inList: bool)
    ensures Unwrap(Render(lines, inList)) == Contents(lines)
    decreases |lines|
  {
    if |lines| == 0 {
      if inList {
        UnwrapSingle("</ul>");
      }
    } else if StartsWith(Strip(lines[0]), "- ") {
      RenderContents(lines[1..], true);
      ItemContents(lines, inList);
    } else {
      RenderContents(lines[1..], false);
      ParagraphContents(lines, inList);
    }
  }

  /** The step of `RenderContents` for a list item. */
  lemma ItemContents(lines: seq<string>, inList: bool)
    requires |lines| > 0 && StartsWith(Strip(lines[0]), "- ")
    requires Unwrap(Render(lines[1..], true)) == Contents(lines[1..])
    ensures Unwrap(Render(lines, inList)) == Contents(lines)
  {
    var s := Strip(lines[0]);
    var rest := Render(lines[1..], true);
    assert Contents(lines) == [s] + Contents(lines[1..]);
    UnwrapAppend([ListItem(s)], rest);
    UnwrapSingle(ListItem(s));
    UnwrapListItem(s);
    var open := if inList then [] else ["<ul>"];
    assert Render(lines, inList) == open + ([ListItem(s)] + rest);
    UnwrapAppend(open, [ListItem(s)] + rest);
    if !inList {
      UnwrapSingle("<ul>");
    }
  }

  /** The step of `RenderContents` for any other line. */
  lemma ParagraphContents(lines: seq<string>, inList: bool)
    requires |lines| > 0 && !StartsWith(Strip(lines[0]), "- ")
    requires Unwrap(Render(lines[1..], false)) == Contents(lines[1..])
    ensures Unwrap(Render(lines, inList)) == Contents(lines)
  {
    var s := Strip(lines[0]);
    var rest := Render(lines[1..], false);
    var own := if s == "" then [] else [s];
    assert Contents(lines) == own + Contents(lines[1..]);
    UnwrapAppend(Paragraph(s), rest);
    UnwrapParagraph(s);
    var close := if inList then ["</ul>"] else [];
    assert Render(lines, inList) == close + (Paragraph(s) + rest);
    UnwrapAppend(close, Paragraph(s) + rest);
    if inList {
      UnwrapSingle("</ul>");
    }
  }

  /** Every non-blank line of the substituted text appears in the items. */
  lemma ItemsContents(text: string)
    ensures Unwrap(Items(text)) == Contents(Lines(text))
  {
    RenderContents(Lines(text), false);
  }

  // ------------------------------------------------------------------
  // The output string
  // ------------------------------------------------------------------

  predicate NoNewline(s: string) { '\n' !in s }

  /** Stripping a line without newlines leaves none. */
  lemma StripOneLine(line: string)
    requires NoNewline(line)
    ensures NoNewline(Strip(line))
  {
    var s := Strip(line);
    var i := StripIsSlice(line);
    assert forall m :: 0 <= m < |s| ==> s[m] == line[i + m];
  }

  /** What one line adds to the items holds no newline. */
  lemma StepOneLine(s: string)
    requires NoNewline(s)
    ensures StartsWith(s, "- ") ==> NoNewline(ListItem(s))
    ensures forall k :: 0 <= k < |Paragraph(s)| ==> NoNewline(Paragraph(s)[k])
  {
    if StartsWith(s, "- ") {
      assert forall m :: 0 <= m < |s| - 2 ==> s[2..][m] == s[m + 2];
    }
  }

  lemma {:induction false} RenderOneLine(lines: seq<string>, inList: bool)
    requires forall k :: 0 <= k < |lines| ==> NoNewline(lines[k])
    ensures forall k :: 0 <= k < |Render(lines, inList)| ==> NoNewline(Render(lines, inList)[k])
    decreases |lines|
  {
    if |lines| > 0 {
      var s := Strip(lines[0]);
      StripOneLine(lines[0]);
      StepOneLine(s);
      RenderOneLine(lines[1..], StartsWith(s, "- "));
    }
  }

  /** The output's lines are exactly the items: `split('\n')` of the joined
      result gives the list back, and an empty list gives "". */
  lemma MdToSafeLines(text: string)
    ensures |Items(text)| == 0 ==> MdToSafe(text) == ""
    ensures |Items(text)| > 0 ==> Split(MdToSafe(text), '\n') == Items(text)
  {
    var pieces := Split(Bold(text, 0), '\n');
    forall k | 0 <= k < |Lines(text)|
      ensures NoNewline(Lines(text)[k])
    {
      assert NoNewline(pieces[k]);
      assert Lines(text)[k] == Heading(pieces[k]);
    }
    RenderOneLine(Lines(text), false);
    if |Items(text)| > 0 {
      SplitJoin(Items(text), '\n');
    }
  }
}
