/** Printing in the migration layout, and reading it back. */
module KeyValuesPrinter {
  import opened KeyValues

  // ----- printing ---------------------------------------------------------------------------

  function Escape(text: string): string {
    if text == "" then ""
    else (if text[0] == '\\' || text[0] == '"' then ['\\', text[0]] else [text[0]]) + Escape(text[1..])
  }

  function Quote(text: string): string {
    "\"" + Escape(text) + "\""
  }

  function Indent(depth: nat): string {
    if depth == 0 then "" else "    " + Indent(depth - 1)
  }

  function PrintEntry(tree: Tree, depth: nat): string
    decreases tree, 1
  {
    Indent(depth) + Quote(tree.name) +
    (if tree.nested
     then "\n" + Indent(depth) + "{\n" + PrintList(tree.children, depth + 1) + Indent(depth) + "}\n"
     else " " + Quote(tree.value) + "\n")
  }

  function PrintList(trees: seq<Tree>, depth: nat): string
    decreases trees, 0
  {
    if trees == [] then "" else PrintEntry(trees[0], depth) + PrintList(trees[1..], depth)
  }

  function Print(trees: seq<Tree>): string {
    PrintList(trees, 0)
  }

  // ----- what can be printed -------------------------------------------------------------------

  predicate Clean(text: string) {
    forall i :: 0 <= i < |text| ==> !Control(text[i])
  }

  predicate Plain(text: string) {
    |text| <= TokenLimit && Clean(text)
  }

  /** A list at the given depth within the parser's limits. */
  predicate Shaped(trees: seq<Tree>, depth: nat)
    decreases trees
  {
    forall i :: 0 <= i < |trees| ==>
      && trees[i].name != "" && |trees[i].name| <= TokenLimit && |trees[i].value| <= TokenLimit
      && (trees[i].nested ==> trees[i].value == "" && depth < DepthLimit && Shaped(trees[i].children, depth + 1))
      && (!trees[i].nested ==> trees[i].children == [])
  }

  /** No name and no value has a control character. */
  predicate AllClean(trees: seq<Tree>)
    decreases trees
  {
    forall i :: 0 <= i < |trees| ==> Clean(trees[i].name) && Clean(trees[i].value) && AllClean(trees[i].children)
  }

  predicate Printable(trees: seq<Tree>, depth: nat) {
    Shaped(trees, depth) && AllClean(trees)
  }

  /** How many entries a list has, with those inside it. */
  function Count(trees: seq<Tree>): nat
    decreases trees
  {
    if trees == [] then 0 else 1 + Count(trees[0].children) + Count(trees[1..])
  }

  // ----- tokens -----------------------------------------------------------------------------------

  /** The text stands at a place in the source. */
  predicate At(source: string, at: nat, text: string) {
    at + |text| <= |source| && source[at..at + |text|] == text
  }

  lemma AtParts(source: string, at: nat, a: string, b: string)
    ensures At(source, at, a + b) <==> At(source, at, a) && At(source, at + |a|, b)
  {
    if At(source, at, a + b) {
      assert source[at..at + |a|] == (a + b)[..|a|] == a;
      assert source[at + |a|..at + |a| + |b|] == (a + b)[|a|..] == b;
    }
    if At(source, at, a) && At(source, at + |a|, b) {
      assert source[at..at + |a + b|] == source[at..at + |a|] + source[at + |a|..at + |a| + |b|];
    }
  }

  lemma AtFirst(source: string, at: nat, text: string)
    requires At(source, at, text) && text != ""
    ensures at < |source| && source[at] == text[0] && At(source, at + 1, text[1..])
  {
    AtParts(source, at, text[..1], text[1..]);
    assert text == text[..1] + text[1..];
    assert source[at..at + 1][0] == text[0];
  }

  /** A plain text is read back from its quoted form. */
  lemma {:induction false} EscapedReads(source: string, at: nat, text: string, read: string)
    requires At(source, at, Escape(text) + "\"") && |read| + |text| <= TokenLimit
    requires Clean(text)
    ensures Quoted(source, at, read) == Got(read + text, at + |Escape(text)| + 1)
    decreases |text|
  {
    AtFirst(source, at, Escape(text) + "\"");
    if text == "" {
      assert read + text == read;
    } else {
      var c, rest := text[0], text[1..];
      assert forall i :: 0 <= i < |rest| ==> rest[i] == text[i + 1];
      assert read + [c] + rest == read + text;
      if c == '\\' || c == '"' {
        assert Escape(text) + "\"" == "\\" + ([c] + (Escape(rest) + "\""));
        assert (Escape(text) + "\"")[1..] == [c] + (Escape(rest) + "\"");
        AtFirst(source, at + 1, [c] + (Escape(rest) + "\""));
        assert ([c] + (Escape(rest) + "\""))[1..] == Escape(rest) + "\"";
        EscapedReads(source, at + 2, rest, read + [c]);
      } else {
        assert Escape(text) + "\"" == [c] + (Escape(rest) + "\"");
        assert (Escape(text) + "\"")[1..] == Escape(rest) + "\"";
        EscapedReads(source, at + 1, rest, read + [c]);
      }
    }
  }

  lemma QuoteReads(source: string, at: nat, text: string)
    requires At(source, at, Quote(text)) && Plain(text)
    ensures at < |source| && source[at] == '"'
    ensures Token(source, at) == Got(text, at + |Quote(text)|)
  {
    assert Quote(text) == "\"" + (Escape(text) + "\"");
    AtFirst(source, at, Quote(text));
    assert Quote(text)[1..] == Escape(text) + "\"";
    EscapedReads(source, at + 1, text, "");
    assert "" + text == text;
  }

  /** A text that is not plain does not come back. */
  lemma {:induction false} EscapedFails(source: string, at: nat, text: string, read: string)
    requires At(source, at, Escape(text) + "\"") && |read| <= TokenLimit
    requires |read| + |text| > TokenLimit || exists i :: 0 <= i < |text| && Control(text[i])
    ensures Quoted(source, at, read).Bad?
    decreases |text|
  {
    AtFirst(source, at, Escape(text) + "\"");
    var c, rest := text[0], text[1..];
    if !Control(c) && |read| < TokenLimit {
      if exists i :: 0 <= i < |text| && Control(text[i]) {
        var i :| 0 <= i < |text| && Control(text[i]);
        assert rest[i - 1] == text[i];
      }
      if c == '\\' || c == '"' {
        assert Escape(text) + "\"" == "\\" + ([c] + (Escape(rest) + "\""));
        assert (Escape(text) + "\"")[1..] == [c] + (Escape(rest) + "\"");
        AtFirst(source, at + 1, [c] + (Escape(rest) + "\""));
        assert ([c] + (Escape(rest) + "\""))[1..] == Escape(rest) + "\"";
        EscapedFails(source, at + 2, rest, read + [c]);
      } else {
        assert Escape(text) + "\"" == [c] + (Escape(rest) + "\"");
        assert (Escape(text) + "\"")[1..] == Escape(rest) + "\"";
        EscapedFails(source, at + 1, rest, read + [c]);
      }
    } else if c == '\\' || c == '"' {
      assert Escape(text) + "\"" == "\\" + ([c] + (Escape(rest) + "\""));
      assert (Escape(text) + "\"")[1..] == [c] + (Escape(rest) + "\"");
      AtFirst(source, at + 1, [c] + (Escape(rest) + "\""));
    } else {
      assert (Escape(text) + "\"")[0] == c;
    }
  }

  /** Quoting and reading are inverse on a text exactly when it is short and has no control characters. */
  lemma QuoteRoundTrip(text: string)
    ensures Token(Quote(text), 0) == Got(text, |Quote(text)|) <==> Plain(text)
  {
    var source := Quote(text);
    assert source[0..|source|] == source;
    assert At(source, 0, source);
    if Plain(text) {
      QuoteReads(source, 0, text);
    } else {
      assert source == "\"" + (Escape(text) + "\"");
      AtFirst(source, 0, source);
      assert source[1..] == Escape(text) + "\"";
      EscapedFails(source, 1, text, "");
    }
  }

  // ----- blanks ---------------------------------------------------------------------------------------

  /** Blanks before something else are passed. */
  lemma {:induction false} BlanksPass(source: string, at: nat, blanks: string)
    requires At(source, at, blanks) && forall i :: 0 <= i < |blanks| ==> Blank(blanks[i])
    ensures Skip(source, at) == Skip(source, at + |blanks|)
    decreases |blanks|
  {
    if blanks != "" {
      AtFirst(source, at, blanks);
      BlanksPass(source, at + 1, blanks[1..]);
    }
  }

  lemma {:induction false} IndentBlank(depth: nat)
    ensures forall i :: 0 <= i < |Indent(depth)| ==> Indent(depth)[i] == ' '
  {
    if depth > 0 { IndentBlank(depth - 1); }
  }

  /** Blanks lead to the next mark. */
  lemma SkipsTo(source: string, at: nat, blanks: string)
    requires At(source, at, blanks) && forall i :: 0 <= i < |blanks| ==> Blank(blanks[i])
    requires at + |blanks| < |source| && source[at + |blanks|] in {'"', '{', '}'}
    ensures Skip(source, at) == Got(true, at + |blanks|)
  {
    BlanksPass(source, at, blanks);
  }

  // ----- entries -------------------------------------------------------------------------------------------

  lemma ValueParts(source: string, at: nat, indent: string, name: string, value: string)
    requires At(source, at, indent + name + (" " + value + "\n"))
    ensures At(source, at, indent) && At(source, at + |indent|, name) && At(source, at + |indent| + |name|, " ")
    ensures At(source, at + |indent| + |name| + 1, value) && At(source, at + |indent| + |name| + 1 + |value|, "\n")
  {
    AtParts(source, at, indent + name, " " + value + "\n");
    AtParts(source, at, indent, name);
    AtParts(source, at + |indent| + |name|, " " + value, "\n");
    AtParts(source, at + |indent| + |name|, " ", value);
  }

  /** A name and its value are read back. */
  lemma ValueReads(source: string, at: nat, tree: Tree, depth: nat, entries: nat)
    requires !tree.nested && tree.children == [] && tree.name != "" && Plain(tree.name) && Plain(tree.value)
    requires At(source, at, PrintEntry(tree, depth)) && entries < EntryLimit
    ensures EntryReads(source, at, tree, depth, entries, entries + 1, "\n")
  {
    hide At, Quote, Quoted, Bare, Skip, Token, Plain, Indent;
    var indent, name, value := Indent(depth), Quote(tree.name), Quote(tree.value);
    ValueParts(source, at, indent, name, value);
    IndentBlank(depth);
    QuoteReads(source, at + |indent|, tree.name);
    QuoteReads(source, at + |indent| + |name| + 1, tree.value);
    SkipsTo(source, at, indent);
    SkipsTo(source, at + |indent| + |name|, " ");
  }

  /** After its indentation the entry is read, and what is left of its line is blank. */
  predicate EntryReads(source: string, at: nat, tree: Tree, depth: nat, before: nat, after: nat, rest: string) {
    var start := at + |Indent(depth)|;
    && start < |source| && source[start] == '"' && Skip(source, at) == Got(true, start)
    && |rest| <= |PrintEntry(tree, depth)|
    && Entry(source, start, depth, before) == Got(Partial([tree], after), at + |PrintEntry(tree, depth)| - |rest|)
    && At(source, at + |PrintEntry(tree, depth)| - |rest|, rest)
  }

  lemma ObjectParts(source: string, at: nat, indent: string, name: string, inner: string)
    requires At(source, at, indent + name + ("\n" + indent + "{\n" + inner + indent + "}\n"))
    ensures At(source, at, indent) && At(source, at + |indent|, name) && At(source, at + |indent| + |name|, "\n" + indent)
    ensures var brace := at + |indent| + |name| + 1 + |indent|;
            && At(source, brace, "{") && At(source, brace + 1, "\n") && At(source, brace + 2, inner)
            && At(source, brace + 2 + |inner|, indent) && At(source, brace + 2 + |inner| + |indent|, "}")
            && At(source, brace + 2 + |inner| + |indent| + 1, "\n")
  {
    hide At;
    AtParts(source, at, indent + name, "\n" + indent + "{\n" + inner + indent + "}\n");
    AtParts(source, at, indent, name);
    var tail := at + |indent| + |name|;
    AtParts(source, tail, "\n" + indent + "{\n" + inner + indent, "}\n");
    AtParts(source, tail, "\n" + indent + "{\n" + inner, indent);
    AtParts(source, tail, "\n" + indent + "{\n", inner);
    AtParts(source, tail, "\n" + indent, "{\n");
    assert "{\n" == "{" + "\n" && "}\n" == "}" + "\n";
    AtParts(source, tail + 1 + |indent|, "{", "\n");
    AtParts(source, tail + 1 + |indent| + 2 + |inner| + |indent|, "}", "\n");
  }

  lemma MarkAt(source: string, at: nat, mark: char)
    requires At(source, at, [mark])
    ensures at < |source| && source[at] == mark
  {
    AtFirst(source, at, [mark]);
  }

  /** The list stands in the source and is followed by blanks and then a brace, or by nothing. */
  predicate Closes(source: string, at: nat, blanks: string, depth: nat) {
    && At(source, at, blanks) && (forall i :: 0 <= i < |blanks| ==> Blank(blanks[i]))
    && if depth == 0 then at + |blanks| == |source|
       else at + |blanks| < |source| && source[at + |blanks|] == '}'
  }

  lemma ClosedList(source: string, at: nat, blanks: string, depth: nat, part: Partial)
    requires Closes(source, at, blanks, depth)
    ensures List(source, at, depth, part) == Got(part, at + |blanks| + (if depth == 0 then 0 else 1))
  {
    BlanksPass(source, at, blanks);
  }

  /** A printed list is read back, entry by entry. */
  lemma {:induction false} ListReads(source: string, at: nat, lead: string, trees: seq<Tree>, blanks: string, depth: nat, part: Partial)
    requires At(source, at, lead) && forall i :: 0 <= i < |lead| ==> Blank(lead[i])
    requires Printable(trees, depth) && part.entries + Count(trees) <= EntryLimit && depth <= DepthLimit
    requires At(source, at + |lead|, PrintList(trees, depth))
    requires Closes(source, at + |lead| + |PrintList(trees, depth)|, blanks, depth)
    ensures var end := at + |lead| + |PrintList(trees, depth)| + |blanks| + (if depth == 0 then 0 else 1);
            List(source, at, depth, part) == Got(Partial(part.trees + trees, part.entries + Count(trees)), end)
    decreases trees, 0
  {
    hide At, Closes, EntryReads, PrintEntry, List, Skip;
    if trees == [] {
      EmptyList(source, at, lead, blanks, depth, part);
      assert part.trees + trees == part.trees;
    } else {
      var first, rest := trees[0], trees[1..];
      PrintableParts(trees, depth);
      hide Printable;
      AtParts(source, at + |lead|, PrintEntry(first, depth), PrintList(rest, depth));
      EntryReadsBack(source, at + |lead|, first, depth, part.entries);
      StepList(source, at, lead, first, depth, part, part.entries + 1 + Count(first.children));
      var next := Partial(part.trees + [first], part.entries + 1 + Count(first.children));
      ListReads(source, at + |lead| + |PrintEntry(first, depth)| - 1, "\n", rest, blanks, depth, next);
      assert next.trees + rest == part.trees + trees;
    }
  }

  lemma PrintableParts(trees: seq<Tree>, depth: nat)
    requires trees != [] && Printable(trees, depth)
    ensures Printable([trees[0]], depth) && Printable(trees[1..], depth)
  {
  }

  lemma EmptyList(source: string, at: nat, lead: string, blanks: string, depth: nat, part: Partial)
    requires At(source, at, lead) && forall i :: 0 <= i < |lead| ==> Blank(lead[i])
    requires Closes(source, at + |lead|, blanks, depth)
    ensures List(source, at, depth, part) == Got(part, at + |lead| + |blanks| + (if depth == 0 then 0 else 1))
  {
    AtParts(source, at, lead, blanks);
    ClosedList(source, at, lead + blanks, depth, part);
  }

  lemma StepList(source: string, at: nat, lead: string, tree: Tree, depth: nat, part: Partial, entries: nat)
    requires At(source, at, lead) && forall i :: 0 <= i < |lead| ==> Blank(lead[i])
    requires EntryReads(source, at + |lead|, tree, depth, part.entries, entries, "\n")
    ensures |PrintEntry(tree, depth)| >= 1
    ensures at <= |source| && at + |lead| + |PrintEntry(tree, depth)| - 1 <= |source|
    ensures List(source, at, depth, part) ==
              List(source, at + |lead| + |PrintEntry(tree, depth)| - 1, depth, Partial(part.trees + [tree], entries))
    ensures At(source, at + |lead| + |PrintEntry(tree, depth)| - 1, "\n")
  {
    hide Entry, PrintEntry, Indent;
    BlanksPass(source, at, lead);
  }

  lemma {:induction false} EntryReadsBack(source: string, at: nat, tree: Tree, depth: nat, entries: nat)
    requires Printable([tree], depth) && depth <= DepthLimit && entries + 1 + Count(tree.children) <= EntryLimit
    requires At(source, at, PrintEntry(tree, depth))
    ensures EntryReads(source, at, tree, depth, entries, entries + 1 + Count(tree.children), "\n")
    decreases tree, 1
  {
    hide At, EntryReads, PrintEntry, PrintList, Quote, List, Skip, Closes;
    assert [tree][0] == tree;
    if !tree.nested {
      ValueReads(source, at, tree, depth, entries);
    } else {
      var indent, name, inner := Indent(depth), Quote(tree.name), PrintList(tree.children, depth + 1);
      var brace := at + |indent| + |name| + 1 + |indent|;
      ObjectIs(source, at, tree, depth);
      MarkAt(source, brace + 2 + |inner| + |indent|, '}');
      IndentCloses(source, brace + 2 + |inner|, depth);
      ListReads(source, brace + 1, "\n", tree.children, indent, depth + 1, Partial([], entries + 1));
      assert [] + tree.children == tree.children;
      ObjectReads(source, at, tree, depth, entries);
    }
  }

  /** Where the parts of a printed object stand. */
  lemma ObjectIs(source: string, at: nat, tree: Tree, depth: nat)
    requires tree.nested && At(source, at, PrintEntry(tree, depth))
    ensures var indent, name, inner := Indent(depth), Quote(tree.name), PrintList(tree.children, depth + 1);
            var brace := at + |indent| + |name| + 1 + |indent|;
            && At(source, at, indent) && At(source, at + |indent|, name) && At(source, at + |indent| + |name|, "\n" + indent)
            && At(source, brace, "{") && At(source, brace + 1, "\n") && At(source, brace + 2, inner)
            && At(source, brace + 2 + |inner|, indent) && At(source, brace + 2 + |inner| + |indent|, "}")
            && At(source, brace + 2 + |inner| + |indent| + 1, "\n")
            && at + |PrintEntry(tree, depth)| == brace + 2 + |inner| + |indent| + 2
  {
    hide At, Quote;
    var indent, name, inner := Indent(depth), Quote(tree.name), PrintList(tree.children, depth + 1);
    assert PrintEntry(tree, depth) == indent + name + ("\n" + indent + "{\n" + inner + indent + "}\n");
    ObjectParts(source, at, indent, name, inner);
  }

  lemma IndentCloses(source: string, at: nat, depth: nat)
    requires At(source, at, Indent(depth)) && at + |Indent(depth)| < |source| && source[at + |Indent(depth)|] == '}'
    ensures Closes(source, at, Indent(depth), depth + 1)
  {
    IndentBlank(depth);
  }

  /** With its children read, an object is read. */
  lemma ObjectReads(source: string, at: nat, tree: Tree, depth: nat, entries: nat)
    requires tree.nested && tree.name != "" && tree.value == "" && Plain(tree.name) && depth < DepthLimit && entries < EntryLimit
    requires At(source, at, PrintEntry(tree, depth))
    requires var brace := at + |Indent(depth)| + |Quote(tree.name)| + 1 + |Indent(depth)|;
             && brace + 1 <= |source|
             && List(source, brace + 1, depth + 1, Partial([], entries + 1)) ==
                Got(Partial(tree.children, entries + 1 + Count(tree.children)), at + |PrintEntry(tree, depth)| - 1)
    ensures EntryReads(source, at, tree, depth, entries, entries + 1 + Count(tree.children), "\n")
  {
    var indent, name := Indent(depth), Quote(tree.name);
    var brace := at + |indent| + |name| + 1 + |indent|;
    hide PrintEntry, PrintList, List, Skip, Quote, Quoted, Bare, Plain, Indent, At, Token, Count;
    ObjectIs(source, at, tree, depth);
    IndentBlank(depth);
    MarkAt(source, brace, '{');
    QuoteReads(source, at + |indent|, tree.name);
    SkipsTo(source, at, indent);
    NewlineIndent(depth);
    SkipsTo(source, at + |indent| + |name|, "\n" + indent);
  }

  lemma NewlineIndent(depth: nat)
    ensures forall i :: 0 <= i < |"\n" + Indent(depth)| ==> Blank(("\n" + Indent(depth))[i])
  {
    IndentBlank(depth);
  }

  /** Reading what was printed gives the same trees back. */
  lemma PrintRoundTrip(trees: seq<Tree>)
    requires Printable(trees, 0) && Count(trees) <= EntryLimit
    ensures Parse(Print(trees)) == Got(trees, |Print(trees)|)
  {
    var source := Print(trees);
    assert source[0..|source|] == source;
    assert At(source, 0, "") && At(source, |source|, "");
    NoMark(trees);
    ListReads(source, 0, "", trees, "", 0, Partial([], 0));
    assert [] + trees == trees;
  }

  /** Printed text does not start with a byte-order mark. */
  lemma NoMark(trees: seq<Tree>)
    ensures Begin(Print(trees)) == 0
  {
    if trees != [] {
      assert Print(trees)[0] == PrintEntry(trees[0], 0)[0] == Quote(trees[0].name)[0] == '"';
    }
  }

  // ----- what reading can give ------------------------------------------------------------------------

  lemma {:induction false} QuotedShort(source: string, at: nat, text: string)
    requires at <= |source| && |text| <= TokenLimit
    ensures Quoted(source, at, text).Got? ==> |Quoted(source, at, text).value| <= TokenLimit
    decreases |source| - at
  {
    if at < |source| && source[at] != '"' && !Control(source[at]) && |text| < TokenLimit {
      if source[at] != '\\' {
        QuotedShort(source, at + 1, text + [source[at]]);
      } else if at + 1 < |source| && Escaped(source[at + 1]).Some? {
        QuotedShort(source, at + 2, text + [Escaped(source[at + 1]).value]);
      }
    }
  }

  lemma {:induction false} BareShort(source: string, at: nat, text: string)
    requires at <= |source| && |text| <= TokenLimit
    ensures Bare(source, at, text).Got? ==> |Bare(source, at, text).value| <= TokenLimit
    decreases |source| - at
  {
    if at < |source| && !Ends(source, at) && !Control(source[at]) && source[at] != '"' && |text| < TokenLimit {
      BareShort(source, at + 1, text + [source[at]]);
    }
  }

  lemma TokenShort(source: string, at: nat)
    requires at <= |source|
    ensures Token(source, at).Got? ==> |Token(source, at).value| <= TokenLimit
  {
    if at < |source| {
      QuotedShort(source, at + 1, "");
      BareShort(source, at, "");
    }
  }

  lemma {:induction false} CountJoin(a: seq<Tree>, b: seq<Tree>)
    ensures Count(a + b) == Count(a) + Count(b)
    decreases |a|
  {
    if a == [] {
      assert a + b == b;
    } else {
      assert (a + b)[0] == a[0] && (a + b)[1..] == a[1..] + b;
      CountJoin(a[1..], b);
    }
  }

  /** Every list that is read is within the limits, and its entries are counted. */
  lemma {:induction false} ListShaped(source: string, at: nat, depth: nat, part: Partial)
    requires at <= |source| && Shaped(part.trees, depth) && part.entries <= EntryLimit
    ensures var outcome := List(source, at, depth, part);
            outcome.Got? ==>
              && Shaped(outcome.value.trees, depth) && outcome.value.entries <= EntryLimit
              && outcome.value.entries - part.entries == Count(outcome.value.trees) - Count(part.trees)
    decreases |source| - at, 1
  {
    hide Token, Skip, Entry;
    var skipped := Skip(source, at);
    if skipped.Got? && skipped.value && source[skipped.at] != '}' {
      EntryShaped(source, skipped.at, depth, part.entries);
      var entry := Entry(source, skipped.at, depth, part.entries);
      if entry.Got? {
        CountJoin(part.trees, entry.value.trees);
        ListShaped(source, entry.at, depth, Partial(part.trees + entry.value.trees, entry.value.entries));
      }
    }
  }

  lemma {:induction false} EntryShaped(source: string, at: nat, depth: nat, entries: nat)
    requires at < |source| && entries <= EntryLimit
    ensures var outcome := Entry(source, at, depth, entries);
            outcome.Got? ==>
              && Shaped(outcome.value.trees, depth) && outcome.value.entries <= EntryLimit
              && outcome.value.entries == entries + Count(outcome.value.trees)
    decreases |source| - at, 0
  {
    hide Token, Skip, List;
    var name := Token(source, at);
    TokenShort(source, at);
    if name.Got? && name.value != "" && entries + 1 <= EntryLimit {
      var skipped := Skip(source, name.at);
      if skipped.Got? && skipped.value {
        if source[skipped.at] == '{' {
          ListShaped(source, skipped.at + 1, depth + 1, Partial([], entries + 1));
        } else {
          TokenShort(source, skipped.at);
        }
      }
    }
  }

  // ----- what does not come back ------------------------------------------------------------------------

  lemma QuoteFails(source: string, at: nat, text: string)
    requires At(source, at, Quote(text)) && !Plain(text)
    ensures Token(source, at).Bad?
  {
    assert Quote(text) == "\"" + (Escape(text) + "\"");
    AtFirst(source, at, Quote(text));
    assert Quote(text)[1..] == Escape(text) + "\"";
    EscapedFails(source, at + 1, text, "");
  }

  /** A list within the limits with a control character in it is not read. */
  lemma {:induction false} ListFails(source: string, at: nat, lead: string, trees: seq<Tree>, depth: nat, part: Partial)
    requires At(source, at, lead) && forall i :: 0 <= i < |lead| ==> Blank(lead[i])
    requires Shaped(trees, depth) && !AllClean(trees) && part.entries + Count(trees) <= EntryLimit && depth <= DepthLimit
    requires At(source, at + |lead|, PrintList(trees, depth))
    ensures at <= |source| && List(source, at, depth, part).Bad?
    decreases trees, 0
  {
    hide At, EntryReads, PrintEntry, List, Skip;
    var first, rest := trees[0], trees[1..];
    ShapedParts(trees, depth);
    CleanParts(trees);
    AtParts(source, at + |lead|, PrintEntry(first, depth), PrintList(rest, depth));
    if AllClean([first]) {
      EntryReadsBack(source, at + |lead|, first, depth, part.entries);
      StepList(source, at, lead, first, depth, part, part.entries + 1 + Count(first.children));
      var next := Partial(part.trees + [first], part.entries + 1 + Count(first.children));
      ListFails(source, at + |lead| + |PrintEntry(first, depth)| - 1, "\n", rest, depth, next);
    } else {
      EntryFails(source, at + |lead|, first, depth, part.entries);
      FailedList(source, at, lead, first, depth, part);
    }
  }

  lemma ShapedParts(trees: seq<Tree>, depth: nat)
    requires trees != [] && Shaped(trees, depth)
    ensures Shaped([trees[0]], depth) && Shaped(trees[1..], depth)
  {
  }

  lemma CleanParts(trees: seq<Tree>)
    requires trees != []
    ensures AllClean(trees) <==> AllClean([trees[0]]) && AllClean(trees[1..])
  {
    assert trees == [trees[0]] + trees[1..];
    if AllClean([trees[0]]) && AllClean(trees[1..]) {
      forall i | 0 <= i < |trees| ensures Clean(trees[i].name) && Clean(trees[i].value) && AllClean(trees[i].children) {
        if i == 0 { assert [trees[0]][0] == trees[i]; } else { assert trees[1..][i - 1] == trees[i]; }
      }
    }
    if AllClean(trees) {
      assert Clean(trees[0].name);
    }
  }

  /** After its indentation the entry fails. */
  predicate EntryBreaks(source: string, at: nat, depth: nat, before: nat) {
    var start := at + |Indent(depth)|;
    start < |source| && source[start] == '"' && Skip(source, at) == Got(true, start) && Entry(source, start, depth, before).Bad?
  }

  lemma FailedList(source: string, at: nat, lead: string, tree: Tree, depth: nat, part: Partial)
    requires At(source, at, lead) && forall i :: 0 <= i < |lead| ==> Blank(lead[i])
    requires EntryBreaks(source, at + |lead|, depth, part.entries)
    ensures at <= |source| && List(source, at, depth, part).Bad?
  {
    hide Entry, Indent;
    BlanksPass(source, at, lead);
  }

  lemma {:induction false} EntryFails(source: string, at: nat, tree: Tree, depth: nat, entries: nat)
    requires Shaped([tree], depth) && !AllClean([tree]) && depth <= DepthLimit && entries + 1 + Count(tree.children) <= EntryLimit
    requires At(source, at, PrintEntry(tree, depth))
    ensures EntryBreaks(source, at, depth, entries)
    decreases tree, 1
  {
    hide At, PrintEntry, PrintList, List, Skip, Token, Bare, Quoted, Indent, Quote;
    assert [tree][0] == tree;
    if tree.nested {
      var indent, name, inner := Indent(depth), Quote(tree.name), PrintList(tree.children, depth + 1);
      var brace := at + |indent| + |name| + 1 + |indent|;
      ObjectIs(source, at, tree, depth);
      MarkAt(source, brace, '{');
      QuoteStarts(source, at + |indent|, tree.name);
      if Plain(tree.name) {
        CleanTree(tree);
        ListFails(source, brace + 1, "\n", tree.children, depth + 1, Partial([], entries + 1));
        ObjectBreaks(source, at, tree, depth, entries);
      } else {
        QuoteFails(source, at + |indent|, tree.name);
        IndentBlank(depth);
        SkipsTo(source, at, indent);
      }
    } else {
      ValueBreaks(source, at, tree, depth, entries);
    }
  }

  lemma CleanTree(tree: Tree)
    requires Clean(tree.name) && Clean(tree.value) && !AllClean([tree])
    ensures !AllClean(tree.children)
  {
    assert [tree][0] == tree;
  }

  lemma QuoteStarts(source: string, at: nat, text: string)
    requires At(source, at, Quote(text))
    ensures at < |source| && source[at] == '"'
  {
    AtFirst(source, at, Quote(text));
  }

  lemma ObjectBreaks(source: string, at: nat, tree: Tree, depth: nat, entries: nat)
    requires tree.nested && tree.name != "" && Plain(tree.name)
    requires At(source, at, PrintEntry(tree, depth))
    requires var brace := at + |Indent(depth)| + |Quote(tree.name)| + 1 + |Indent(depth)|;
             brace + 1 <= |source| && List(source, brace + 1, depth + 1, Partial([], entries + 1)).Bad?
    ensures EntryBreaks(source, at, depth, entries)
  {
    var indent, name := Indent(depth), Quote(tree.name);
    var brace := at + |indent| + |name| + 1 + |indent|;
    hide PrintEntry, PrintList, List, Skip, Quote, Quoted, Bare, Plain, Indent, At, Token;
    ObjectIs(source, at, tree, depth);
    IndentBlank(depth);
    MarkAt(source, brace, '{');
    QuoteReads(source, at + |indent|, tree.name);
    SkipsTo(source, at, indent);
    NewlineIndent(depth);
    SkipsTo(source, at + |indent| + |name|, "\n" + indent);
  }

  lemma ValueBreaks(source: string, at: nat, tree: Tree, depth: nat, entries: nat)
    requires !tree.nested && tree.children == [] && tree.name != "" && !(Plain(tree.name) && Plain(tree.value))
    requires At(source, at, PrintEntry(tree, depth))
    ensures EntryBreaks(source, at, depth, entries)
  {
    hide At, Quote, Quoted, Bare, Skip, Token, Plain, Indent;
    var indent, name, value := Indent(depth), Quote(tree.name), Quote(tree.value);
    ValueParts(source, at, indent, name, value);
    IndentBlank(depth);
    QuoteStarts(source, at + |indent|, tree.name);
    SkipsTo(source, at, indent);
    if Plain(tree.name) {
      QuoteReads(source, at + |indent|, tree.name);
      QuoteStarts(source, at + |indent| + |name| + 1, tree.value);
      SkipsTo(source, at + |indent| + |name|, " ");
      QuoteFails(source, at + |indent| + |name| + 1, tree.value);
    } else {
      QuoteFails(source, at + |indent|, tree.name);
    }
  }

  /** Reading what was printed gives the trees back exactly when they are within the limits and clean. */
  lemma PrintRoundTripExactly(trees: seq<Tree>)
    ensures Parse(Print(trees)) == Got(trees, |Print(trees)|) <==> Printable(trees, 0) && Count(trees) <= EntryLimit
  {
    if Printable(trees, 0) && Count(trees) <= EntryLimit {
      PrintRoundTrip(trees);
    } else if Parse(Print(trees)) == Got(trees, |Print(trees)|) {
      NoMark(trees);
      ListShaped(Print(trees), 0, 0, Partial([], 0));
      assert Print(trees)[0..|Print(trees)|] == Print(trees);
      hide List;
      ListFails(Print(trees), 0, "", trees, 0, Partial([], 0));
    }
  }

  /** Whatever was read, printing it and reading again gives the same exactly when no escape stood for a control character. */
  lemma ReprintExactly(source: string)
    ensures var first := Parse(source);
            first.Got? ==>
              (Parse(Print(first.value)) == Got(first.value, |Print(first.value)|) <==> AllClean(first.value))
  {
    var first := Parse(source);
    if first.Got? {
      ListShaped(source, Begin(source), 0, Partial([], 0));
      hide List, Shaped, AllClean;
      PrintRoundTripExactly(first.value);
    }
  }
}
