/** Every way of writing a configuration reads as what it says: comments and blanks anywhere, quoted and bare words. */
module KeyValuesLanguage {
  import opened KeyValues
  import opened KeyValuesPrinter

  // ----- quoted words ------------------------------------------------------------------------

  /** The two characters that stand for one that cannot be written as itself. */
  function Mark(c: char): Option<char> {
    if c == '\n' then Some('n') else if c == '\r' then Some('r') else if c == '\t' then Some('t')
    else if c == '"' then Some('"') else if c == '\\' then Some('\\') else None
  }

  function Spell(text: string): string {
    if text == "" then ""
    else (if Mark(text[0]).Some? then ['\\', Mark(text[0]).value] else [text[0]]) + Spell(text[1..])
  }

  /** The only control characters are those that have a mark. */
  predicate Spellable(text: string) {
    forall i :: 0 <= i < |text| && Control(text[i]) ==> text[i] in {'\n', '\r', '\t'}
  }

  lemma {:induction false} SpelledReads(source: string, at: nat, text: string, read: string)
    requires At(source, at, Spell(text) + "\"") && |read| + |text| <= TokenLimit && Spellable(text)
    ensures Quoted(source, at, read) == Got(read + text, at + |Spell(text)| + 1)
    decreases |text|
  {
    AtFirst(source, at, Spell(text) + "\"");
    if text == "" {
      assert read + text == read;
    } else {
      var c, rest := text[0], text[1..];
      assert forall i :: 0 <= i < |rest| ==> rest[i] == text[i + 1];
      assert read + [c] + rest == read + text;
      if Mark(c).Some? {
        var mark := Mark(c).value;
        assert Spell(text) + "\"" == "\\" + ([mark] + (Spell(rest) + "\""));
        assert (Spell(text) + "\"")[1..] == [mark] + (Spell(rest) + "\"");
        AtFirst(source, at + 1, [mark] + (Spell(rest) + "\""));
        assert ([mark] + (Spell(rest) + "\""))[1..] == Spell(rest) + "\"";
        SpelledReads(source, at + 2, rest, read + [c]);
      } else {
        assert Spell(text) + "\"" == [c] + (Spell(rest) + "\"");
        assert (Spell(text) + "\"")[1..] == Spell(rest) + "\"";
        SpelledReads(source, at + 1, rest, read + [c]);
      }
    }
  }

  /** A text with no other control characters than newline, return and tab is read back from its spelling. */
  lemma SpellingReads(text: string)
    requires |text| <= 4096 && Spellable(text)
    ensures Token("\"" + Spell(text) + "\"", 0) == Got(text, |Spell(text)| + 2)
  {
    var source := "\"" + Spell(text) + "\"";
    assert source[1..] == Spell(text) + "\"";
    assert source[1..1 + |Spell(text) + "\""|] == source[1..];
    SpelledReads(source, 1, text, "");
    assert "" + text == text;
  }

  /** Any other character after a backslash fails, right behind it. */
  lemma OtherEscapesFail(source: string, at: nat, read: string)
    requires at + 1 < |source| && source[at] == '\\' && source[at + 1] !in {'n', 'r', 't', '"', '\\'}
    ensures Quoted(source, at, read) == Bad(at + 2, "unsupported escape")
  {
  }

  /** So does the end of the text, a control character that is not spelled, and a word that is too long. */
  lemma OtherCharactersFail(source: string, at: nat, read: string)
    requires at <= |source| && |read| <= 4096
    ensures at == |source| ==> Quoted(source, at, read).Bad?
    ensures at < |source| && (source[at] < ' ' || source[at] == 127 as char) ==> Quoted(source, at, read) == Bad(at, "invalid character in token")
    ensures at < |source| && source[at] >= ' ' && source[at] !in {'"', '\\', 127 as char} && |read| == 4096 ==> Quoted(source, at, read).Bad?
  {
  }

  // ----- bare words ------------------------------------------------------------------------------

  /** A word that needs no quotes: no blank, brace, quote or control character, and nothing that looks like a comment. */
  predicate BareWord(text: string) {
    && 0 < |text| <= TokenLimit && text[|text| - 1] != '/'
    && (forall i :: 0 <= i < |text| ==>
          text[i] >= ' ' && text[i] !in {' ', '\t', '\r', '\n', '{', '}', '"', 127 as char})
    && forall i :: 0 <= i < |text| - 1 && text[i] == '/' ==> text[i + 1] != '/' && text[i + 1] != '*'
  }

  /** What must come after a bare word. */
  predicate Stops(source: string, at: nat) {
    at == |source| || (at < |source| && Ends(source, at))
  }

  lemma {:induction false} BareReads(source: string, at: nat, text: string, done: nat)
    requires At(source, at, text) && BareWord(text) && Stops(source, at + |text|) && done <= |text|
    ensures Bare(source, at + done, text[..done]) == Got(text, at + |text|)
    decreases |text| - done
  {
    forall i | 0 <= i < |text| ensures text[i] == source[at + i] {
      assert source[at..at + |text|][i] == text[i];
    }
    if done == |text| {
      assert text[..done] == text;
    } else {
      assert source[at + done] == text[done];
      assert done + 1 < |text| ==> source[at + done + 1] == text[done + 1];
      assert !Ends(source, at + done);
      assert text[..done] + [text[done]] == text[..done + 1];
      BareReads(source, at, text, done + 1);
    }
  }

  /** A quote or a control character in a bare word fails at its place, and so does a brace where a word must be. */
  lemma BareRefusals(source: string, at: nat, read: string)
    requires at < |source|
    ensures !Ends(source, at) && (source[at] == '"' || source[at] < ' ' || source[at] == 127 as char) ==>
              Bare(source, at, read) == Bad(at, "invalid character in token")
    ensures source[at] in {'{', '}'} ==> Token(source, at) == Bad(at, "expected a key or string value")
    ensures !Ends(source, at) && source[at] >= ' ' && source[at] !in {'"', 127 as char} && |read| >= 4096 ==> Bare(source, at, read).Bad?
  {
  }

  // ----- either ---------------------------------------------------------------------------------------

  datatype Spelling = InQuotes | AsBare

  datatype Word = Word(text: string, spelling: Spelling)

  function WordText(word: Word): string {
    if word.spelling.AsBare? then word.text else "\"" + Spell(word.text) + "\""
  }

  predicate WordOk(word: Word) {
    if word.spelling.AsBare? then BareWord(word.text) else |word.text| <= TokenLimit && Spellable(word.text)
  }

  lemma WordReads(source: string, at: nat, word: Word)
    requires At(source, at, WordText(word)) && WordOk(word)
    requires word.spelling.AsBare? ==> Stops(source, at + |WordText(word)|)
    ensures Token(source, at) == Got(word.text, at + |WordText(word)|)
    ensures at < |source| && !Blank(source[at]) && !Starts(source, at, '/', '/') && !Starts(source, at, '/', '*')
    ensures source[at] != '{' && source[at] != '}'
  {
    if word.spelling.AsBare? {
      BareReads(source, at, word.text, 0);
      assert word.text[..0] == "";
      BareStart(source, at, word.text);
    } else {
      var text := "\"" + Spell(word.text) + "\"";
      AtFirst(source, at, text);
      assert text[1..] == Spell(word.text) + "\"";
      SpelledReads(source, at + 1, word.text, "");
      assert "" + word.text == word.text;
    }
  }

  lemma BareStart(source: string, at: nat, text: string)
    requires At(source, at, text) && BareWord(text)
    ensures at < |source| && source[at] == text[0]
    ensures !Blank(source[at]) && source[at] != '"' && source[at] != '{' && source[at] != '}'
    ensures !Starts(source, at, '/', '/') && !Starts(source, at, '/', '*')
  {
    AtFirst(source, at, text);
    if |text| > 1 { AtFirst(source, at + 1, text[1..]); }
  }

  // ----- what may stand between words -------------------------------------------------------------------

  datatype Piece = Space(mark: char) | Line(text: string) | Block(text: string)

  type Gap = seq<Piece>

  function PieceText(piece: Piece): string {
    match piece
    case Space(mark) => [mark]
    case Line(text) => "//" + text + "\n"
    case Block(text) => "/*" + text + "*/"
  }

  /** A comment ends where it says. */
  predicate PieceOk(piece: Piece) {
    match piece
    case Space(mark) => mark in {' ', '\t', '\r', '\n'}
    case Line(text) => '\n' !in text
    case Block(text) => forall i :: 0 <= i < |text| - 1 && text[i] == '*' ==> text[i + 1] != '/'
  }

  predicate GapOk(gap: Gap) {
    forall i :: 0 <= i < |gap| ==> PieceOk(gap[i])
  }

  function GapText(gap: Gap): string {
    if gap == [] then "" else PieceText(gap[0]) + GapText(gap[1..])
  }

  lemma {:induction false} LineEnds(source: string, at: nat, text: string)
    requires At(source, at, text + "\n") && '\n' !in text
    ensures LineEnd(source, at) == at + |text|
    decreases |text|
  {
    AtFirst(source, at, text + "\n");
    if text != "" {
      assert (text + "\n")[1..] == text[1..] + "\n";
      LineEnds(source, at + 1, text[1..]);
    }
  }

  lemma {:induction false} BlockEnds(source: string, at: nat, text: string)
    requires At(source, at, text + "*/") && PieceOk(Block(text))
    ensures BlockEnd(source, at) == Some(at + |text| + 2)
    decreases |text|
  {
    if text == "" {
      Two(source, at, '*', '/');
    } else {
      var rest := text[1..];
      assert text + "*/" == [text[0]] + (rest + "*/") && (text + "*/")[1..] == rest + "*/";
      AtFirst(source, at, text + "*/");
      assert forall i :: 0 <= i < |rest| ==> rest[i] == text[i + 1];
      BlockEnds(source, at + 1, rest);
      AtFirst(source, at + 1, rest + "*/");
      hide At;
    }
  }

  lemma PiecePasses(source: string, at: nat, piece: Piece)
    requires At(source, at, PieceText(piece)) && PieceOk(piece)
    ensures Skip(source, at) == Skip(source, at + |PieceText(piece)|)
  {
    match piece
    case Space(mark) => AtFirst(source, at, PieceText(piece));
    case Line(text) => LinePasses(source, at, text);
    case Block(text) => BlockPasses(source, at, text);
  }

  lemma LinePasses(source: string, at: nat, text: string)
    requires At(source, at, "//" + text + "\n") && '\n' !in text
    ensures Skip(source, at) == Skip(source, at + |text| + 3)
  {
    assert "//" + text + "\n" == "//" + (text + "\n");
    AtParts(source, at, "//", text + "\n");
    Two(source, at, '/', '/');
    LineEnds(source, at + 2, text);
    AtParts(source, at + 2, text, "\n");
    AtFirst(source, at + 2 + |text|, "\n");
    hide At, LineEnd;
  }

  lemma BlockPasses(source: string, at: nat, text: string)
    requires At(source, at, "/*" + text + "*/") && PieceOk(Block(text))
    ensures Skip(source, at) == Skip(source, at + |text| + 4)
  {
    assert "/*" + text + "*/" == "/*" + (text + "*/");
    AtParts(source, at, "/*", text + "*/");
    Two(source, at, '/', '*');
    BlockEnds(source, at + 2, text);
    hide At, BlockEnd;
  }

  lemma Two(source: string, at: nat, first: char, second: char)
    requires At(source, at, [first, second])
    ensures Starts(source, at, first, second) && at + 2 <= |source|
  {
    AtFirst(source, at, [first, second]);
    AtFirst(source, at + 1, [second]);
  }

  /** Blanks and comments are passed, wherever they stand. */
  lemma {:induction false} GapPasses(source: string, at: nat, gap: Gap)
    requires At(source, at, GapText(gap)) && GapOk(gap)
    ensures Skip(source, at) == Skip(source, at + |GapText(gap)|)
    decreases |gap|
  {
    hide Skip, PieceText, PieceOk;
    if gap != [] {
      AtParts(source, at, PieceText(gap[0]), GapText(gap[1..]));
      PiecePasses(source, at, gap[0]);
      GapPasses(source, at + |PieceText(gap[0])|, gap[1..]);
    }
  }

  /** A gap stops a bare word. */
  lemma GapStops(source: string, at: nat, gap: Gap)
    requires At(source, at, GapText(gap)) && GapOk(gap) && gap != []
    ensures at < |source| && Ends(source, at)
  {
    var piece := gap[0];
    AtParts(source, at, PieceText(piece), GapText(gap[1..]));
    AtFirst(source, at, PieceText(piece));
    if !piece.Space? { AtFirst(source, at + 1, PieceText(piece)[1..]); }
  }

  /** There is no closing mark from here on. */
  predicate NoClose(source: string, at: nat) {
    forall i :: at <= i < |source| - 1 && source[i] == '*' ==> source[i + 1] != '/'
  }

  lemma {:induction false} NoBlockEnd(source: string, at: nat)
    requires NoClose(source, at)
    ensures BlockEnd(source, at).None?
    decreases |source| - at
  {
    if at + 1 < |source| { NoBlockEnd(source, at + 1); }
  }

  /** A comment that is not closed fails where it begins. */
  lemma OpenCommentFails(source: string, at: nat)
    requires Starts(source, at, '/', '*') && NoClose(source, at + 2)
    ensures Skip(source, at) == Bad(at, "unterminated comment")
  {
    NoBlockEnd(source, at + 2);
  }

  /** A brace too many, and one too few. */
  lemma BracesMustMatch(source: string, at: nat, gap: Gap, depth: nat, part: Partial)
    requires At(source, at, GapText(gap)) && GapOk(gap)
    requires if depth == 0 then at + |GapText(gap)| < |source| && source[at + |GapText(gap)|] == '}' else at + |GapText(gap)| == |source|
    ensures List(source, at, depth, part) ==
              Bad(at + |GapText(gap)|, if depth == 0 then "unexpected closing brace" else "missing closing brace")
  {
    GapPasses(source, at, gap);
    hide GapText, GapOk, At;
    EndsHere(source, at + |GapText(gap)|, if depth == 0 then 1 else 0);
    hide Skip;
  }

  // ----- whole configurations -----------------------------------------------------------------------------

  /** An entry as it is written: a name and its value, or a name and the entries inside its braces. */
  datatype Node =
    | Leaf(before: Gap, name: Word, between: Gap, value: Word)
    | Branch(before: Gap, name: Word, between: Gap, children: seq<Node>, after: Gap)

  function NodeText(node: Node): string
    decreases node, 1
  {
    GapText(node.before) + (WordText(node.name) + (GapText(node.between) + Rest(node)))
  }

  /** The value, or the braces and what is in them. */
  function Rest(node: Node): string
    decreases node, 0
  {
    match node
    case Leaf(_, _, _, value) => WordText(value)
    case Branch(_, _, _, children, after) => "{" + (NodesText(children) + (GapText(after) + "}"))
  }

  function NodesText(nodes: seq<Node>): string
    decreases nodes, 0
  {
    if nodes == [] then "" else NodeText(nodes[0]) + NodesText(nodes[1..])
  }

  /** The last word is bare, so something must follow it. */
  predicate EndsBare(node: Node) {
    node.Leaf? && node.value.spelling.AsBare?
  }

  predicate NodeOk(node: Node)
    decreases node, 0
  {
    && GapOk(node.before) && WordOk(node.name) && GapOk(node.between) && node.name.text != ""
    && (node.name.spelling.AsBare? ==> node.Branch? || node.between != [])
    && match node
       case Leaf(_, _, _, value) => WordOk(value)
       case Branch(_, _, _, children, after) => NodesOk(children) && GapOk(after)
  }

  predicate NodesOk(nodes: seq<Node>)
    decreases nodes, 1
  {
    && (forall i :: 0 <= i < |nodes| ==> NodeOk(nodes[i]))
    && forall i :: 0 <= i < |nodes| - 1 && EndsBare(nodes[i]) ==> nodes[i + 1].before != []
  }

  function TreeOf(node: Node): Tree
    decreases node, 0
  {
    match node
    case Leaf(_, name, _, value) => Tree(name.text, false, value.text, [])
    case Branch(_, name, _, children, _) => Tree(name.text, true, "", TreesOf(children))
  }

  function TreesOf(nodes: seq<Node>): seq<Tree>
    decreases nodes, 1
  {
    if nodes == [] then [] else [TreeOf(nodes[0])] + TreesOf(nodes[1..])
  }

  /** How deep the braces go. */
  function Deep(nodes: seq<Node>): nat
    decreases nodes
  {
    if nodes == [] then 0 else Larger(if nodes[0].Branch? then 1 + Deep(nodes[0].children) else 0, Deep(nodes[1..]))
  }

  function Larger(a: nat, b: nat): nat {
    if a < b then b else a
  }

  /** What follows a list: blanks and comments, and then the brace that closes it, or the end of the text. */
  predicate ListCloses(source: string, at: nat, gap: Gap, depth: nat) {
    && At(source, at, GapText(gap)) && GapOk(gap)
    && if depth == 0 then at + |GapText(gap)| == |source|
       else at + |GapText(gap)| < |source| && source[at + |GapText(gap)|] == '}'
  }

  lemma ClosesStops(source: string, at: nat, gap: Gap, depth: nat)
    requires ListCloses(source, at, gap, depth)
    ensures Stops(source, at)
  {
    if gap != [] { GapStops(source, at, gap); }
  }

  /** A list of nodes is read node by node. */
  lemma {:induction false} NodesRead(source: string, at: nat, nodes: seq<Node>, gap: Gap, depth: nat, part: Partial)
    requires NodesOk(nodes) && depth + Deep(nodes) <= DepthLimit && part.entries + Count(TreesOf(nodes)) <= EntryLimit
    requires At(source, at, NodesText(nodes)) && ListCloses(source, at + |NodesText(nodes)|, gap, depth)
    ensures var end := at + |NodesText(nodes)| + |GapText(gap)| + (if depth == 0 then 0 else 1);
            List(source, at, depth, part) == Got(Partial(part.trees + TreesOf(nodes), part.entries + Count(TreesOf(nodes))), end)
    decreases nodes, 0
  {
    hide At, NodeText, List, GapText, Count, NodeOk, TreeOf;
    if nodes == [] {
      ListEnds(source, at, gap, depth, part);
      assert part.trees + TreesOf(nodes) == part.trees && Count([]) == 0 by { CountNothing(); }
    } else {
      var first, rest := nodes[0], nodes[1..];
      AtParts(source, at, NodeText(first), NodesText(rest));
      CountSplits(TreeOf(first), TreesOf(rest));
      RestStops(source, at, nodes, gap, depth);
      NodeReads(source, at, first, depth, part);
      var next := Partial(part.trees + [TreeOf(first)], part.entries + 1 + Count(TreeOf(first).children));
      NodesRead(source, at + |NodeText(first)|, rest, gap, depth, next);
      assert next.trees + TreesOf(rest) == part.trees + TreesOf(nodes);
    }
  }

  lemma CountNothing()
    ensures Count([]) == 0
  {
  }

  lemma CountSplits(first: Tree, rest: seq<Tree>)
    ensures Count([first] + rest) == 1 + Count(first.children) + Count(rest)
  {
    assert ([first] + rest)[0] == first && ([first] + rest)[1..] == rest;
  }

  lemma ListEnds(source: string, at: nat, gap: Gap, depth: nat, part: Partial)
    requires ListCloses(source, at, gap, depth)
    ensures List(source, at, depth, part) == Got(part, at + |GapText(gap)| + (if depth == 0 then 0 else 1))
  {
    GapPasses(source, at, gap);
    hide GapText, GapOk, At;
    EndsHere(source, at + |GapText(gap)|, depth);
    hide Skip;
  }

  lemma EndsHere(source: string, at: nat, depth: nat)
    requires if depth == 0 then at == |source| else at < |source| && source[at] == '}'
    ensures Skip(source, at) == Got(depth > 0, at)
  {
  }

  /** A list read from its beginning. */
  lemma {:induction false} AllRead(source: string, at: nat, nodes: seq<Node>, gap: Gap, depth: nat, entries: nat)
    requires NodesOk(nodes) && depth + Deep(nodes) <= DepthLimit && entries + Count(TreesOf(nodes)) <= EntryLimit
    requires At(source, at, NodesText(nodes)) && ListCloses(source, at + |NodesText(nodes)|, gap, depth)
    ensures var end := at + |NodesText(nodes)| + |GapText(gap)| + (if depth == 0 then 0 else 1);
            List(source, at, depth, Partial([], entries)) == Got(Partial(TreesOf(nodes), entries + Count(TreesOf(nodes))), end)
    decreases nodes, 2
  {
    hide NodesOk, Deep, Count, TreesOf, At, NodesText, ListCloses, GapText, List;
    NodesRead(source, at, nodes, gap, depth, Partial([], entries));
    NothingBefore(TreesOf(nodes));
  }

  lemma NothingBefore(trees: seq<Tree>)
    ensures [] + trees == trees
  {
  }

  /** Whatever follows a node that ends bare stops it. */
  lemma RestStops(source: string, at: nat, nodes: seq<Node>, gap: Gap, depth: nat)
    requires NodesOk(nodes) && nodes != [] && At(source, at, NodesText(nodes)) && ListCloses(source, at + |NodesText(nodes)|, gap, depth)
    ensures EndsBare(nodes[0]) ==> Stops(source, at + |NodeText(nodes[0])|)
  {
    hide At, Rest, WordText, GapText, Stops, NodeOk;
    var first, rest := nodes[0], nodes[1..];
    if EndsBare(first) {
      AtParts(source, at, NodeText(first), NodesText(rest));
      var after := at + |NodeText(first)|;
      if rest == [] {
        ClosesStops(source, after, gap, depth);
      } else {
        assert NodeOk(nodes[1]) && nodes[1].before != [];
        NodeBefore(nodes[1]);
        AtParts(source, after, NodeText(rest[0]), NodesText(rest[1..]));
        AtParts(source, after, GapText(rest[0].before), WordText(rest[0].name) + (GapText(rest[0].between) + Rest(rest[0])));
        GapStops(source, after, rest[0].before);
        StopsHere(source, after);
      }
    }
  }

  lemma NodeBefore(node: Node)
    requires NodeOk(node)
    ensures GapOk(node.before)
  {
  }

  lemma StopsHere(source: string, at: nat)
    requires at < |source| && Ends(source, at)
    ensures Stops(source, at)
  {
  }

  /** One node, with the blanks and comments before it. */
  lemma {:induction false} NodeReads(source: string, at: nat, node: Node, depth: nat, part: Partial)
    requires NodeOk(node) && depth + Deep([node]) <= DepthLimit && part.entries + 1 + Count(TreeOf(node).children) <= EntryLimit
    requires At(source, at, NodeText(node)) && (EndsBare(node) ==> Stops(source, at + |NodeText(node)|))
    ensures at + |NodeText(node)| <= |source|
    ensures List(source, at, depth, part) ==
              List(source, at + |NodeText(node)|, depth, Partial(part.trees + [TreeOf(node)], part.entries + 1 + Count(TreeOf(node).children)))
    decreases node, 2
  {
    hide At, GapText, WordText, List, Count, GapOk, WordOk, Token, Skip;
    var start := at + |GapText(node.before)|;
    var middle := start + |WordText(node.name)|;
    var rest := middle + |GapText(node.between)|;
    NodePlaces(source, at, node);
    NameStops(source, middle, node);
    WordReads(source, start, node.name);
    GapPasses(source, at, node.before);
    GapPasses(source, middle, node.between);
    RestReads(source, rest, node, depth, part.entries);
    hide NodeText, Rest, Stops;
    EntryOf(source, at, start, middle, rest, node, depth, part);
  }

  lemma AtEnds(source: string, at: nat, text: string)
    requires At(source, at, text)
    ensures at + |text| <= |source|
  {
  }

  lemma NodePlaces(source: string, at: nat, node: Node)
    requires At(source, at, NodeText(node))
    ensures var start := at + |GapText(node.before)|;
            var middle := start + |WordText(node.name)|;
            var rest := middle + |GapText(node.between)|;
            && At(source, at, GapText(node.before)) && At(source, start, WordText(node.name))
            && At(source, middle, GapText(node.between)) && At(source, rest, Rest(node))
            && at + |NodeText(node)| == rest + |Rest(node)| && rest + |Rest(node)| <= |source|
  {
    hide At, GapText, WordText, Rest;
    var start := at + |GapText(node.before)|;
    var middle := start + |WordText(node.name)|;
    AtParts(source, at, GapText(node.before), WordText(node.name) + (GapText(node.between) + Rest(node)));
    AtParts(source, start, WordText(node.name), GapText(node.between) + Rest(node));
    AtParts(source, middle, GapText(node.between), Rest(node));
    AtEnds(source, middle + |GapText(node.between)|, Rest(node));
  }

  lemma NameStops(source: string, middle: nat, node: Node)
    requires NodeOk(node) && At(source, middle, GapText(node.between)) && At(source, middle + |GapText(node.between)|, Rest(node))
    ensures node.name.spelling.AsBare? ==> Stops(source, middle)
  {
    if node.name.spelling.AsBare? {
      if node.between != [] {
        GapStops(source, middle, node.between);
      } else {
        AtFirst(source, middle, Rest(node));
      }
    }
  }

  /** What the reader finds after a name. */
  ghost predicate RestIs(source: string, rest: nat, node: Node, depth: nat, entries: nat) {
    && rest < |source| && Skip(source, rest) == Got(true, rest)
    && match node
       case Leaf(_, _, _, value) => source[rest] != '{' && Token(source, rest) == Got(value.text, rest + |Rest(node)|)
       case Branch(_, _, _, children, _) =>
         && source[rest] == '{' && depth < DepthLimit
         && List(source, rest + 1, depth + 1, Partial([], entries + 1)) ==
            Got(Partial(TreesOf(children), entries + 1 + Count(TreesOf(children))), rest + |Rest(node)|)
  }

  lemma {:induction false} RestReads(source: string, rest: nat, node: Node, depth: nat, entries: nat)
    requires NodeOk(node) && depth + Deep([node]) <= DepthLimit && entries + 1 + Count(TreeOf(node).children) <= EntryLimit
    requires At(source, rest, Rest(node)) && (EndsBare(node) ==> Stops(source, rest + |Rest(node)|))
    ensures RestIs(source, rest, node, depth, entries)
    decreases node, 1
  {
    if node.Leaf? { LeafReads(source, rest, node, depth, entries); } else { BranchReads(source, rest, node, depth, entries); }
  }

  lemma {:induction false} BranchReads(source: string, rest: nat, node: Node, depth: nat, entries: nat)
    requires NodeOk(node) && node.Branch? && depth + Deep([node]) <= DepthLimit && entries + 1 + Count(TreesOf(node.children)) <= EntryLimit
    requires At(source, rest, Rest(node))
    ensures RestIs(source, rest, node, depth, entries)
    decreases node, 0
  {
    hide At, List, GapOk, NodesOk, GapText, NodesText, Count, Deep, NodeOk, Skip, Token, TreesOf, ListCloses;
    BranchOk(node, depth);
    BranchPlaces(source, rest, node.children, node.after, depth + 1);
    AllRead(source, rest + 1, node.children, node.after, depth + 1, entries + 1);
    BraceHere(source, rest);
  }

  lemma BraceHere(source: string, at: nat)
    requires at < |source| && source[at] == '{'
    ensures Skip(source, at) == Got(true, at)
  {
  }

  lemma BranchOk(node: Node, depth: nat)
    requires NodeOk(node) && node.Branch? && depth + Deep([node]) <= DepthLimit
    ensures NodesOk(node.children) && GapOk(node.after) && depth + 1 + Deep(node.children) <= DepthLimit
  {
    assert Deep([node]) >= 1 + Deep(node.children);
    hide NodesOk, GapOk;
  }

  lemma LeafReads(source: string, rest: nat, node: Node, depth: nat, entries: nat)
    requires NodeOk(node) && node.Leaf? && At(source, rest, Rest(node)) && (EndsBare(node) ==> Stops(source, rest + |Rest(node)|))
    ensures RestIs(source, rest, node, depth, entries)
  {
    hide At, WordText, List, WordOk, Token;
    WordReads(source, rest, node.value);
  }

  lemma BranchPlaces(source: string, rest: nat, children: seq<Node>, after: Gap, depth: nat)
    requires At(source, rest, "{" + (NodesText(children) + (GapText(after) + "}"))) && GapOk(after) && depth > 0
    ensures rest < |source| && source[rest] == '{' && At(source, rest + 1, NodesText(children))
    ensures ListCloses(source, rest + 1 + |NodesText(children)|, after, depth)
    ensures |"{" + (NodesText(children) + (GapText(after) + "}"))| == |NodesText(children)| + |GapText(after)| + 2
  {
    hide At, NodesText, GapText;
    var inner := NodesText(children) + (GapText(after) + "}");
    AtParts(source, rest, "{", inner);
    AtFirst(source, rest, "{");
    AtParts(source, rest + 1, NodesText(children), GapText(after) + "}");
    AtParts(source, rest + 1 + |NodesText(children)|, GapText(after), "}");
    AtFirst(source, rest + 1 + |NodesText(children)| + |GapText(after)|, "}");
  }

  /** The parts of an entry, put together. */
  lemma EntryOf(source: string, at: nat, start: nat, middle: nat, rest: nat, node: Node, depth: nat, part: Partial)
    requires at <= start < middle <= rest && middle <= |source| && start < |source|
    requires Skip(source, at) == Skip(source, start) && Token(source, start) == Got(node.name.text, middle) && node.name.text != ""
    requires !Blank(source[start]) && !Starts(source, start, '/', '/') && !Starts(source, start, '/', '*') && source[start] != '}'
    requires RestIs(source, rest, node, depth, part.entries) && Skip(source, middle) == Skip(source, rest)
    requires part.entries + 1 + Count(TreeOf(node).children) <= EntryLimit && rest + |Rest(node)| <= |source|
    ensures List(source, at, depth, part) ==
              List(source, rest + |Rest(node)|, depth, Partial(part.trees + [TreeOf(node)], part.entries + 1 + Count(TreeOf(node).children)))
  {
    assert Skip(source, start) == Got(true, start);
    hide Rest, Token, Count, Skip, Blank, Starts, Begin, RestIs, Entry, List;
    EntryIs(source, start, middle, rest, node, depth, part.entries);
    ListStep(source, at, start, depth, part, TreeOf(node), part.entries + 1 + Count(TreeOf(node).children), rest + |Rest(node)|);
  }

  lemma ListStep(source: string, at: nat, start: nat, depth: nat, part: Partial, tree: Tree, entries: nat, end: nat)
    requires at <= start < |source| && end <= |source| && Skip(source, at) == Got(true, start) && source[start] != '}'
    requires Entry(source, start, depth, part.entries) == Got(Partial([tree], entries), end)
    ensures List(source, at, depth, part) == List(source, end, depth, Partial(part.trees + [tree], entries))
  {
    hide Entry, Skip;
  }

  lemma EntryIs(source: string, start: nat, middle: nat, rest: nat, node: Node, depth: nat, entries: nat)
    requires start < middle <= |source| && start < |source|
    requires Token(source, start) == Got(node.name.text, middle) && node.name.text != ""
    requires RestIs(source, rest, node, depth, entries) && Skip(source, middle) == Skip(source, rest)
    requires entries + 1 + Count(TreeOf(node).children) <= EntryLimit
    ensures Entry(source, start, depth, entries) == Got(Partial([TreeOf(node)], entries + 1 + Count(TreeOf(node).children)), rest + |Rest(node)|)
  {
    hide Rest, Token, Skip, List, TreesOf;
    assert Count([]) == 0 by { CountNothing(); }
    hide Count;
  }

  /**
    * However a configuration is laid out, with comments and blanks anywhere and any word quoted or, where it can
    * be, bare, it reads as the trees it says, within the limits of the format.
    */
  lemma AnyLayoutReads(nodes: seq<Node>, gap: Gap, marked: bool)
    requires NodesOk(nodes) && GapOk(gap) && Deep(nodes) <= DepthLimit && Count(TreesOf(nodes)) <= EntryLimit
    requires !marked ==> Begin(NodesText(nodes) + GapText(gap)) == 0
    ensures var text := (if marked then [0xEF as char, 0xBB as char, 0xBF as char] else "") + (NodesText(nodes) + GapText(gap));
            Parse(text) == Got(TreesOf(nodes), |text|)
  {
    BeginsBehind(marked, NodesText(nodes) + GapText(gap));
    BodyReads(if marked then [0xEF as char, 0xBB as char, 0xBF as char] else "", nodes, gap);
    hide NodesText, GapText, List, NodesOk, GapOk, TreesOf, Deep, Count, Begin;
  }

  /** The text behind a byte-order mark, or anything else. */
  lemma BodyReads(front: string, nodes: seq<Node>, gap: Gap)
    requires NodesOk(nodes) && GapOk(gap) && Deep(nodes) <= DepthLimit && Count(TreesOf(nodes)) <= EntryLimit
    ensures var text := front + (NodesText(nodes) + GapText(gap));
            List(text, |front|, 0, Partial([], 0)) == Got(Partial(TreesOf(nodes), Count(TreesOf(nodes))), |text|)
  {
    hide NodesText, GapText, List, NodesOk, GapOk, TreesOf, Deep, Count, At;
    var text := front + (NodesText(nodes) + GapText(gap));
    Behind(front, NodesText(nodes) + GapText(gap));
    AtParts(text, |front|, NodesText(nodes), GapText(gap));
    AllRead(text, |front|, nodes, gap, 0, 0);
  }

  lemma BeginsBehind(marked: bool, body: string)
    requires !marked ==> Begin(body) == 0
    ensures var front := if marked then [0xEF as char, 0xBB as char, 0xBF as char] else ""; Begin(front + body) == |front|
  {
    if !marked { assert "" + body == body; }
  }

  lemma Behind(front: string, body: string)
    ensures At(front + body, |front|, body)
  {
    assert (front + body)[|front|..|front| + |body|] == body;
  }
}
