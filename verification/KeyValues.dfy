/** The configuration format: what the parser reads, and the layout the migration tool writes. */
module KeyValues {
  datatype Tree = Tree(name: string, nested: bool, value: string, children: seq<Tree>)

  /** What was read and where reading stopped, or where and why it failed. */
  datatype Outcome<T> = Got(value: T, at: nat) | Bad(where: nat, message: string)

  datatype Option<T> = None | Some(value: T)

  const DepthLimit: nat := 16
  const EntryLimit: nat := 65536
  const TokenLimit: nat := 4096

  // ----- characters -----------------------------------------------------------------------

  predicate Blank(c: char) {
    c == ' ' || c == '\t' || c == '\r' || c == '\n'
  }

  predicate Control(c: char) {
    c < ' ' || c == 127 as char
  }

  predicate Starts(source: string, at: nat, first: char, second: char) {
    at + 1 < |source| && source[at] == first && source[at + 1] == second
  }

  // ----- reading ----------------------------------------------------------------------------

  /** The end of a line comment: the newline, or the end of the text. */
  function LineEnd(source: string, at: nat): (end: nat)
    requires at <= |source|
    ensures at <= end <= |source|
    decreases |source| - at
  {
    if at < |source| && source[at] != '\n' then LineEnd(source, at + 1) else at
  }

  /** The end of a block comment, past its closing mark. */
  function BlockEnd(source: string, at: nat): (end: Option<nat>)
    ensures end.Some? ==> at + 2 <= end.value <= |source|
    decreases |source| - at
  {
    if at + 1 >= |source| then None
    else if Starts(source, at, '*', '/') then Some(at + 2)
    else BlockEnd(source, at + 1)
  }

  /** Passes blanks and comments; tells whether anything is left. */
  function Skip(source: string, at: nat): (outcome: Outcome<bool>)
    requires at <= |source|
    ensures outcome.Got? ==> at <= outcome.at <= |source| && (outcome.value <==> outcome.at < |source|)
    decreases |source| - at
  {
    if at == |source| then Got(false, at)
    else if Blank(source[at]) then Skip(source, at + 1)
    else if Starts(source, at, '/', '/') then
      Skip(source, LineEnd(source, at + 2))
    else if Starts(source, at, '/', '*') then
      var end := BlockEnd(source, at + 2);
      if end.None? then Bad(at, "unterminated comment") else Skip(source, end.value)
    else Got(true, at)
  }

  function Escaped(c: char): Option<char> {
    if c == 'n' then Some('\n') else if c == 'r' then Some('\r') else if c == 't' then Some('\t')
    else if c == '"' || c == '\\' then Some(c) else None
  }

  /** The rest of a quoted token, after `text`. */
  function Quoted(source: string, at: nat, text: string): (outcome: Outcome<string>)
    requires at <= |source|
    ensures outcome.Got? ==> at < outcome.at <= |source|
    decreases |source| - at
  {
    if at == |source| then Bad(at, "unterminated quoted string")
    else if source[at] == '"' then Got(text, at + 1)
    else if Control(source[at]) then Bad(at, "invalid character in token")
    else if source[at] != '\\' then
      if |text| + 1 > TokenLimit then Bad(at + 1, "token exceeds 4096 bytes") else Quoted(source, at + 1, text + [source[at]])
    else if at + 1 == |source| then Bad(at + 1, "unterminated escape")
    else if Escaped(source[at + 1]).None? then Bad(at + 2, "unsupported escape")
    else if |text| + 1 > TokenLimit then Bad(at + 2, "token exceeds 4096 bytes")
    else Quoted(source, at + 2, text + [Escaped(source[at + 1]).value])
  }

  predicate Ends(source: string, at: nat)
    requires at < |source|
  {
    Blank(source[at]) || source[at] == '{' || source[at] == '}' || Starts(source, at, '/', '/') || Starts(source, at, '/', '*')
  }

  /** The rest of a bare token, after `text`. */
  function Bare(source: string, at: nat, text: string): (outcome: Outcome<string>)
    requires at <= |source|
    ensures outcome.Got? ==> at <= outcome.at <= |source| && |outcome.value| - |text| == outcome.at - at && outcome.value != ""
    decreases |source| - at
  {
    if at == |source| || Ends(source, at) then if text == "" then Bad(at, "expected a key or string value") else Got(text, at)
    else if Control(source[at]) || source[at] == '"' then Bad(at, "invalid character in token")
    else if |text| + 1 > TokenLimit then Bad(at + 1, "token exceeds 4096 bytes")
    else Bare(source, at + 1, text + [source[at]])
  }

  function Token(source: string, at: nat): (outcome: Outcome<string>)
    requires at <= |source|
    ensures outcome.Got? ==> at < outcome.at <= |source|
  {
    if at == |source| || source[at] == '{' || source[at] == '}' then Bad(at, "expected a key or string value")
    else if source[at] == '"' then Quoted(source, at + 1, "")
    else Bare(source, at, "")
  }

  /** A list read so far, with how many entries the whole text has had. */
  datatype Partial = Partial(trees: seq<Tree>, entries: nat)

  /** The entries of one object, or of the text, after those already read. */
  function List(source: string, at: nat, depth: nat, part: Partial): (outcome: Outcome<Partial>)
    requires at <= |source|
    ensures outcome.Got? ==> at <= outcome.at <= |source|
    ensures outcome.Got? && depth > 0 ==> at < outcome.at
    decreases |source| - at, 1
  {
    var skipped := Skip(source, at);
    if skipped.Bad? then Bad(skipped.where, skipped.message)
    else if !skipped.value then if depth > 0 then Bad(skipped.at, "missing closing brace") else Got(part, skipped.at)
    else if source[skipped.at] == '}' then
      if depth == 0 then Bad(skipped.at, "unexpected closing brace") else Got(part, skipped.at + 1)
    else
      var entry := Entry(source, skipped.at, depth, part.entries);
      if entry.Bad? then Bad(entry.where, entry.message)
      else List(source, entry.at, depth, Partial(part.trees + entry.value.trees, entry.value.entries))
  }

  /** One entry: a name, then a value or an object. */
  function Entry(source: string, at: nat, depth: nat, entries: nat): (outcome: Outcome<Partial>)
    requires at < |source|
    ensures outcome.Got? ==> at < outcome.at <= |source|
    decreases |source| - at, 0
  {
    var name := Token(source, at);
    if name.Bad? then Bad(name.where, name.message)
    else if name.value == "" then Bad(name.at, "empty key")
    else if entries + 1 > EntryLimit then Bad(name.at, "too many entries")
    else
      var skipped := Skip(source, name.at);
      if skipped.Bad? then Bad(skipped.where, skipped.message)
      else if !skipped.value then Bad(skipped.at, "key has no value")
      else if source[skipped.at] == '{' then
        if depth + 1 > DepthLimit then Bad(skipped.at + 1, "objects are nested too deeply")
        else
          var children := List(source, skipped.at + 1, depth + 1, Partial([], entries + 1));
          if children.Bad? then Bad(children.where, children.message)
          else Got(Partial([Tree(name.value, true, "", children.value.trees)], children.value.entries), children.at)
      else
        var value := Token(source, skipped.at);
        if value.Bad? then Bad(value.where, value.message)
        else Got(Partial([Tree(name.value, false, value.value, [])], entries + 1), value.at)
  }

  /** Past a byte-order mark, if there is one. */
  function Begin(source: string): (at: nat)
    ensures at <= |source|
  {
    if |source| >= 3 && source[0] == 0xEF as char && source[1] == 0xBB as char && source[2] == 0xBF as char then 3 else 0
  }

  function Parse(source: string): Outcome<seq<Tree>> {
    var outcome := List(source, Begin(source), 0, Partial([], 0));
    if outcome.Bad? then Bad(outcome.where, outcome.message) else Got(outcome.value.trees, outcome.at)
  }
}
