/** The parser as it runs: one position in the text, moved forward until it ends or fails. */
module KeyValuesParser {
  import opened KeyValues

  class Parser {
    const source: string
    var position: nat
    var entries: nat

    constructor (source: string)
      ensures this.source == source && position == Begin(source) && entries == 0 && position <= |source|
    {
      this.source := source;
      position := if |source| >= 3 && source[0] == 0xEF as char && source[1] == 0xBB as char && source[2] == 0xBF as char then 3 else 0;
      entries := 0;
    }

    /** Passes blanks and comments. */
    method Pass() returns (outcome: Outcome<bool>)
      requires position <= |source|
      modifies this`position
      ensures position <= |source|
      ensures outcome == Skip(source, old(position)) && (outcome.Got? ==> position == outcome.at)
    {
      while position < |source|
        invariant position <= |source| && Skip(source, position) == Skip(source, old(position))
        decreases |source| - position
      {
        if Blank(source[position]) {
          position := position + 1;
        } else if Starts(source, position, '/', '/') {
          ghost var start := position;
          position := position + 2;
          while position < |source| && source[position] != '\n'
            invariant position <= |source| && LineEnd(source, position) == LineEnd(source, start + 2)
          {
            position := position + 1;
          }
        } else if Starts(source, position, '/', '*') {
          var end := FindClose(position + 2);
          if end.None? { return Bad(position, "unterminated comment"); }
          position := end.value;
        } else {
          return Got(true, position);
        }
      }
      return Got(false, position);
    }

    method FindClose(from: nat) returns (end: Option<nat>)
      ensures end == BlockEnd(source, from)
    {
      var at := from;
      while at + 1 < |source| && !Starts(source, at, '*', '/')
        invariant BlockEnd(source, at) == BlockEnd(source, from)
      {
        at := at + 1;
      }
      return if at + 1 >= |source| then None else Some(at + 2);
    }

    /** Reads a quoted or a bare token. */
    method ReadToken() returns (outcome: Outcome<string>)
      requires position <= |source|
      modifies this`position
      ensures position <= |source|
      ensures outcome == Token(source, old(position)) && (outcome.Got? ==> position == outcome.at)
    {
      if position == |source| || source[position] == '{' || source[position] == '}' {
        return Bad(position, "expected a key or string value");
      }
      if source[position] == '"' {
        position := position + 1;
        outcome := ReadQuoted();
      } else {
        outcome := ReadBare();
      }
    }

    method ReadQuoted() returns (outcome: Outcome<string>)
      requires position <= |source|
      modifies this`position
      ensures position <= |source|
      ensures outcome == Quoted(source, old(position), "") && (outcome.Got? ==> position == outcome.at)
    {
      var text := "";
      while position < |source|
        invariant position <= |source| && Quoted(source, position, text) == Quoted(source, old(position), "")
        decreases |source| - position
      {
        var c := source[position];
        if c == '"' {
          position := position + 1;
          return Got(text, position);
        }
        if Control(c) { return Bad(position, "invalid character in token"); }
        position := position + 1;
        if c == '\\' {
          if position == |source| { return Bad(position, "unterminated escape"); }
          var meant := Escaped(source[position]);
          position := position + 1;
          if meant.None? { return Bad(position, "unsupported escape"); }
          c := meant.value;
        }
        if |text| + 1 > TokenLimit { return Bad(position, "token exceeds 4096 bytes"); }
        text := text + [c];
      }
      return Bad(position, "unterminated quoted string");
    }

    method ReadBare() returns (outcome: Outcome<string>)
      requires position <= |source|
      modifies this`position
      ensures position <= |source|
      ensures outcome == Bare(source, old(position), "") && (outcome.Got? ==> position == outcome.at)
    {
      var text := "";
      while position < |source| && !Ends(source, position)
        invariant position <= |source| && Bare(source, position, text) == Bare(source, old(position), "")
        decreases |source| - position
      {
        var c := source[position];
        if Control(c) || c == '"' { return Bad(position, "invalid character in token"); }
        position := position + 1;
        if |text| + 1 > TokenLimit { return Bad(position, "token exceeds 4096 bytes"); }
        text := text + [c];
      }
      return if text == "" then Bad(position, "expected a key or string value") else Got(text, position);
    }

    /** Reads the entries of the text (at depth zero) or of an object, up to its brace. */
    method Parse(depth: nat) returns (outcome: Outcome<seq<Tree>>)
      requires position <= |source|
      modifies this
      ensures position <= |source|
      ensures var spec := List(source, old(position), depth, Partial([], old(entries)));
              outcome == (if spec.Bad? then Bad(spec.where, spec.message) else Got(spec.value.trees, spec.at)) &&
              (spec.Got? ==> position == spec.at && entries == spec.value.entries)
      decreases |source| - position, 1
    {
      var trees: seq<Tree> := [];
      ghost var start, before := position, entries;
      while true
        invariant start <= position <= |source|
        invariant List(source, position, depth, Partial(trees, entries)) == List(source, start, depth, Partial([], before))
        decreases |source| - position
      {
        hide Entry, Skip, Token;
        var skipped := Pass();
        if skipped.Bad? { return Bad(skipped.where, skipped.message); }
        if !skipped.value {
          if depth > 0 { return Bad(position, "missing closing brace"); }
          return Got(trees, position);
        }
        if source[position] == '}' {
          if depth == 0 { return Bad(position, "unexpected closing brace"); }
          position := position + 1;
          return Got(trees, position);
        }
        var entry := ParseEntry(depth);
        if entry.Bad? { return Bad(entry.where, entry.message); }
        trees := trees + entry.value.trees;
      }
    }

    method ParseEntry(depth: nat) returns (outcome: Outcome<Partial>)
      requires position < |source|
      modifies this
      ensures position <= |source|
      ensures outcome == Entry(source, old(position), depth, old(entries))
      ensures outcome.Got? ==> position == outcome.at && entries == outcome.value.entries
      decreases |source| - position, 0
    {
      hide List, Skip, Token;
      var name := ReadToken();
      if name.Bad? { return Bad(name.where, name.message); }
      if name.value == "" { return Bad(position, "empty key"); }
      entries := entries + 1;
      if entries > EntryLimit { return Bad(position, "too many entries"); }
      var skipped := Pass();
      if skipped.Bad? { return Bad(skipped.where, skipped.message); }
      if !skipped.value { return Bad(position, "key has no value"); }
      if source[position] == '{' {
        position := position + 1;
        if depth + 1 > DepthLimit { return Bad(position, "objects are nested too deeply"); }
        var children := Parse(depth + 1);
        if children.Bad? { return Bad(children.where, children.message); }
        return Got(Partial([Tree(name.value, true, "", children.value)], entries), position);
      }
      var value := ReadToken();
      if value.Bad? { return Bad(value.where, value.message); }
      return Got(Partial([Tree(name.value, false, value.value, [])], entries), position);
    }
  }

  /** Reads a whole text. */
  method Read(source: string) returns (outcome: Outcome<seq<Tree>>)
    ensures outcome == Parse(source)
  {
    var parser := new Parser(source);
    outcome := parser.Parse(0);
  }
}
