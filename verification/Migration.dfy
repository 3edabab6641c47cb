/** The files the administrator migration writes, line by line, and what the server reads from them. */
module Migration {
  import opened Decimals
  import opened KeyValues
  import opened KeyValuesPrinter

  datatype Group = Group(name: string, level: nat, permissions: seq<string>)
  datatype Admin = Admin(caption: string, account: string, group: string, level: nat)

  // ----- what the files mean ---------------------------------------------------------------

  function Leaf(name: string, value: string): KeyValues.Tree {
    Tree(name, false, value, [])
  }

  function Section(name: string, children: seq<Tree>): Tree {
    Tree(name, true, "", children)
  }

  function Lower(text: string): string {
    if text == "" then ""
    else [if 'A' <= text[0] <= 'Z' then (text[0] as int + 32) as char else text[0]] + Lower(text[1..])
  }

  function Grants(permissions: seq<string>): seq<Tree> {
    if permissions == [] then [] else [Leaf(permissions[0], "1")] + Grants(permissions[1..])
  }

  /** The root group needs no list: it has every permission. */
  predicate HasList(group: Group) {
    Lower(group.name) != "root" && group.permissions != []
  }

  function GroupTree(group: Group): Tree {
    Section(group.name, [Leaf("immunity", Decimal(group.level))] +
                        (if HasList(group) then [Section("permissions", Grants(group.permissions))] else []))
  }

  function GroupTrees(groups: seq<Group>): seq<Tree> {
    if groups == [] then [] else [GroupTree(groups[0])] + GroupTrees(groups[1..])
  }

  function AdminTree(admin: Admin): Tree {
    Section(admin.caption, [Leaf("identity", admin.account), Leaf("group", admin.group), Leaf("immunity", Decimal(admin.level))])
  }

  function AdminTrees(admins: seq<Admin>): seq<Tree> {
    if admins == [] then [] else [AdminTree(admins[0])] + AdminTrees(admins[1..])
  }

  // ----- lines --------------------------------------------------------------------------------

  /** The lines with a newline after each. */
  function Glue(lines: seq<string>): string {
    if lines == [] then "" else lines[0] + "\n" + Glue(lines[1..])
  }

  lemma {:induction false} GlueJoins(a: seq<string>, b: seq<string>)
    ensures Glue(a + b) == Glue(a) + Glue(b)
    decreases |a|
  {
    if a == [] {
      assert a + b == b;
    } else {
      assert (a + b)[0] == a[0] && (a + b)[1..] == a[1..] + b;
      GlueJoins(a[1..], b);
    }
  }

  lemma GlueOne(line: string)
    ensures Glue([line]) == line + "\n"
  {
    assert Glue([]) == "";
  }

  lemma {:induction false} PrintListJoins(a: seq<Tree>, b: seq<Tree>, depth: nat)
    ensures PrintList(a + b, depth) == PrintList(a, depth) + PrintList(b, depth)
    decreases |a|
  {
    if a == [] {
      assert a + b == b;
    } else {
      assert (a + b)[0] == a[0] && (a + b)[1..] == a[1..] + b;
      PrintListJoins(a[1..], b, depth);
    }
  }

  lemma PrintOne(tree: Tree, depth: nat)
    ensures PrintList([tree], depth) == PrintEntry(tree, depth)
  {
    assert PrintList([tree][1..], depth) == "";
  }

  /** Joins lines with newlines between them. */
  method Join(lines: seq<string>) returns (text: string)
    requires lines != []
    ensures text + "\n" == Glue(lines)
  {
    text := lines[0];
    GlueOne(lines[0]);
    assert lines[..1] == [lines[0]];
    for i := 1 to |lines|
      invariant text + "\n" == Glue(lines[..i])
    {
      assert lines[..i + 1] == lines[..i] + [lines[i]];
      GlueJoins(lines[..i], [lines[i]]);
      GlueOne(lines[i]);
      text := text + "\n" + lines[i];
    }
    assert lines[..|lines|] == lines;
  }

  function LeafLine(indent: string, name: string, value: string): string {
    indent + Quote(name) + " " + Quote(value)
  }

  lemma LeafPrints(name: string, value: string, depth: nat)
    ensures PrintEntry(Leaf(name, value), depth) == LeafLine(Indent(depth), name, value) + "\n"
  {
  }

  /** An object is its name, a brace, what is in it, and a brace. */
  lemma SectionPrints(name: string, children: seq<Tree>, inner: seq<string>, depth: nat)
    requires Glue(inner) == PrintList(children, depth + 1)
    ensures Glue([Indent(depth) + Quote(name), Indent(depth) + "{"] + inner + [Indent(depth) + "}"]) ==
              PrintEntry(Section(name, children), depth)
  {
    hide Quote, Indent, PrintList;
    var head, tail := [Indent(depth) + Quote(name), Indent(depth) + "{"], [Indent(depth) + "}"];
    GlueJoins(head + inner, tail);
    GlueJoins(head, inner);
    GlueJoins([Indent(depth) + Quote(name)], [Indent(depth) + "{"]);
    assert head == [Indent(depth) + Quote(name)] + [Indent(depth) + "{"];
    GlueOne(Indent(depth) + Quote(name));
    GlueOne(Indent(depth) + "{");
    GlueOne(Indent(depth) + "}");
    SectionText(Indent(depth), Quote(name), PrintList(children, depth + 1));
  }

  lemma SectionText(indent: string, name: string, inner: string)
    ensures indent + name + "\n" + (indent + "{" + "\n") + inner + (indent + "}" + "\n") ==
              indent + name + ("\n" + indent + "{\n" + inner + indent + "}\n")
  {
    assert "{" + "\n" == "{\n" && "}" + "\n" == "}\n";
  }

  // ----- the group file --------------------------------------------------------------------------

  method GrantLines(permissions: seq<string>) returns (lines: seq<string>)
    ensures Glue(lines) == PrintList(Grants(permissions), 3)
  {
    lines := [];
    for i := 0 to |permissions|
      invariant Glue(lines) + PrintList(Grants(permissions[i..]), 3) == PrintList(Grants(permissions), 3)
    {
      var line := LeafLine("            ", permissions[i], "1");
      GrantStep(lines, permissions, i);
      lines := lines + [line];
    }
    assert permissions[|permissions|..] == [];
  }

  lemma GrantStep(lines: seq<string>, permissions: seq<string>, i: nat)
    requires i < |permissions|
    ensures Glue(lines) + PrintList(Grants(permissions[i..]), 3) ==
              Glue(lines + [LeafLine("            ", permissions[i], "1")]) + PrintList(Grants(permissions[i + 1..]), 3)
  {
    var leaf := Leaf(permissions[i], "1");
    assert permissions[i..][0] == permissions[i] && permissions[i..][1..] == permissions[i + 1..];
    hide Quote, PrintEntry;
    PrintListJoins([leaf], Grants(permissions[i + 1..]), 3);
    PrintOne(leaf, 3);
    LeafPrints(permissions[i], "1", 3);
    IndentThree();
    GlueJoins(lines, [LeafLine("            ", permissions[i], "1")]);
    GlueOne(LeafLine("            ", permissions[i], "1"));
  }

  lemma IndentThree()
    ensures Indent(1) == "    " && Indent(2) == "        " && Indent(3) == "            "
  {
    assert Indent(0) == "";
    assert Indent(1) == "    " + Indent(0);
    assert Indent(2) == "    " + Indent(1);
    assert Indent(3) == "    " + Indent(2);
  }

  method GroupLines(group: Group) returns (lines: seq<string>)
    ensures Glue(lines) == PrintEntry(GroupTree(group), 1)
  {
    hide Quote, Indent, PrintEntry, PrintList, Glue;
    IndentThree();
    var inner := [LeafLine("        ", "immunity", Decimal(group.level))];
    var leaf := Leaf("immunity", Decimal(group.level));
    GlueOne(inner[0]);
    LeafPrints("immunity", Decimal(group.level), 2);
    PrintOne(leaf, 2);
    if HasList(group) {
      var grants := GrantLines(group.permissions);
      var list := ["        " + Quote("permissions"), "        " + "{"] + grants + ["        " + "}"];
      SectionPrints("permissions", Grants(group.permissions), grants, 2);
      PrintOne(Section("permissions", Grants(group.permissions)), 2);
      PrintListJoins([leaf], [Section("permissions", Grants(group.permissions))], 2);
      GlueJoins(inner, list);
      inner := inner + list;
    } else {
      assert [leaf] + [] == [leaf];
    }
    SectionPrints(group.name, GroupTree(group).children, inner, 1);
    lines := ["    " + Quote(group.name), "    " + "{"] + inner + ["    " + "}"];
  }

  /** The text of the group file. */
  method GroupText(groups: seq<Group>) returns (text: string)
    ensures text == Print([Section("Groups", GroupTrees(groups))])
    ensures GroupsFit(groups) ==> Parse(text) == Got([Section("Groups", GroupTrees(groups))], |text|)
  {
    hide Quote, Indent, PrintEntry, Glue, Escape, Shaped, AllClean, List, Count, GroupsFit;
    var inner: seq<string> := [];
    GlueEmpty();
    for i := 0 to |groups|
      invariant Glue(inner) + PrintList(GroupTrees(groups[i..]), 1) == PrintList(GroupTrees(groups), 1)
    {
      var lines := GroupLines(groups[i]);
      assert groups[i..][0] == groups[i] && groups[i..][1..] == groups[i + 1..];
      PrintListJoins([GroupTree(groups[i])], GroupTrees(groups[i + 1..]), 1);
      PrintOne(GroupTree(groups[i]), 1);
      GlueJoins(inner, lines);
      inner := inner + lines;
    }
    assert groups[|groups|..] == [];
    text := Finish("Groups", GroupTrees(groups), inner);
    if GroupsFit(groups) { GroupsAreRead(groups); }
  }

  lemma GlueEmpty()
    ensures Glue([]) == ""
  {
  }

  /** The file around the lines of its entries; it ends with a newline. */
  method Finish(name: string, children: seq<Tree>, inner: seq<string>) returns (text: string)
    requires Glue(inner) == PrintList(children, 1)
    ensures text == Print([Section(name, children)])
  {
    hide Quote, PrintEntry, Glue;
    IndentZero();
    SectionPrints(name, children, inner, 0);
    PrintOne(Section(name, children), 0);
    var lines := [Quote(name), "{"] + inner + ["}"];
    assert "" + Quote(name) == Quote(name) && "" + "{" == "{" && "" + "}" == "}";
    GlueJoins(lines, [""]);
    GlueOne("");
    var joined := Join(lines + [""]);
    assert "" + "\n" == "\n";
    LastNewline(joined, Glue(lines));
    text := joined;
  }

  lemma IndentZero()
    ensures Indent(0) == ""
  {
  }

  lemma LastNewline(a: string, b: string)
    requires a + "\n" == b + "\n"
    ensures a == b
  {
    assert a == (a + "\n")[..|a|] && b == (b + "\n")[..|b|];
    assert |a| == |b|;
  }

  // ----- the administrator file --------------------------------------------------------------------

  method AdminLines(admin: Admin) returns (lines: seq<string>)
    ensures Glue(lines) == PrintEntry(AdminTree(admin), 1)
  {
    hide Quote, Indent, PrintEntry, PrintList, Glue;
    IndentThree();
    var identity, group, immunity := Leaf("identity", admin.account), Leaf("group", admin.group), Leaf("immunity", Decimal(admin.level));
    var a, b, c := LeafLine("        ", "identity", admin.account), LeafLine("        ", "group", admin.group),
                   LeafLine("        ", "immunity", Decimal(admin.level));
    LeafPrints("identity", admin.account, 2);
    LeafPrints("group", admin.group, 2);
    LeafPrints("immunity", Decimal(admin.level), 2);
    GlueOne(a);
    GlueOne(b);
    GlueOne(c);
    GlueJoins([a], [b]);
    GlueJoins([a] + [b], [c]);
    PrintOne(identity, 2);
    PrintOne(group, 2);
    PrintOne(immunity, 2);
    PrintListJoins([identity], [group], 2);
    PrintListJoins([identity] + [group], [immunity], 2);
    assert [identity] + [group] + [immunity] == AdminTree(admin).children;
    SectionPrints(admin.caption, AdminTree(admin).children, [a] + [b] + [c], 1);
    lines := ["    " + Quote(admin.caption), "    " + "{"] + ([a] + [b] + [c]) + ["    " + "}"];
  }

  /** The text of the administrator file. */
  method AdminText(admins: seq<Admin>) returns (text: string)
    ensures text == Print([Section("Admins", AdminTrees(admins))])
    ensures AdminsFit(admins) ==> Parse(text) == Got([Section("Admins", AdminTrees(admins))], |text|)
  {
    hide Quote, Indent, PrintEntry, Glue, Escape, Shaped, AllClean, List, Count, AdminsFit;
    var inner: seq<string> := [];
    GlueEmpty();
    for i := 0 to |admins|
      invariant Glue(inner) + PrintList(AdminTrees(admins[i..]), 1) == PrintList(AdminTrees(admins), 1)
    {
      var lines := AdminLines(admins[i]);
      assert admins[i..][0] == admins[i] && admins[i..][1..] == admins[i + 1..];
      PrintListJoins([AdminTree(admins[i])], AdminTrees(admins[i + 1..]), 1);
      PrintOne(AdminTree(admins[i]), 1);
      GlueJoins(inner, lines);
      inner := inner + lines;
    }
    assert admins[|admins|..] == [];
    text := Finish("Admins", AdminTrees(admins), inner);
    if AdminsFit(admins) { AdminsAreRead(admins); }
  }

  // ----- what the tool checks before it writes ------------------------------------------------------

  predicate Checked(text: string, limit: nat) {
    0 < |text| <= limit && Clean(text)
  }

  predicate GroupFits(group: Group) {
    && Checked(group.name, 64) && group.level <= 0x7FFF_FFFF
    && forall i :: 0 <= i < |group.permissions| ==> Checked(group.permissions[i], 96)
  }

  predicate GroupsFit(groups: seq<Group>) {
    (forall i :: 0 <= i < |groups| ==> GroupFits(groups[i])) && 1 + Count(GroupTrees(groups)) <= EntryLimit
  }

  predicate AdminFits(admin: Admin) {
    Checked(admin.caption, 128) && Checked(admin.account, 20) && Checked(admin.group, 64) && admin.level <= 0x7FFF_FFFF
  }

  predicate AdminsFit(admins: seq<Admin>) {
    |admins| <= 4096 && forall i :: 0 <= i < |admins| ==> AdminFits(admins[i])
  }

  lemma {:induction false} DecimalPlain(n: nat)
    ensures Clean(Decimal(n))
    ensures n <= 0x7FFF_FFFF ==> |Decimal(n)| <= 10
  {
    DecimalReads(n);
    if n <= 0x7FFF_FFFF { DecimalLength(n, 10); }
  }

  lemma {:induction false} DecimalLength(n: nat, width: nat)
    requires n < Power(width) && 1 <= width
    ensures |Decimal(n)| <= width
    decreases width
  {
    if n >= 10 { DecimalLength(n / 10, width - 1); }
  }

  lemma {:induction false} GrantsPrintable(permissions: seq<string>, depth: nat)
    requires forall i :: 0 <= i < |permissions| ==> Checked(permissions[i], 96)
    ensures Printable(Grants(permissions), depth)
    decreases |permissions|
  {
    if permissions != [] { GrantsPrintable(permissions[1..], depth); }
  }

  lemma GroupPrintable(group: Group)
    requires GroupFits(group)
    ensures Printable([GroupTree(group)], 1)
  {
    DecimalPlain(group.level);
    GrantsPrintable(group.permissions, 3);
  }

  lemma {:induction false} GroupsPrintable(groups: seq<Group>)
    requires forall i :: 0 <= i < |groups| ==> GroupFits(groups[i])
    ensures Printable(GroupTrees(groups), 1)
    decreases |groups|
  {
    hide GroupTree, GroupFits;
    if groups != [] {
      GroupPrintable(groups[0]);
      GroupsPrintable(groups[1..]);
      PrintableJoin([GroupTree(groups[0])], GroupTrees(groups[1..]), 1);
    }
  }

  lemma PrintableJoin(a: seq<Tree>, b: seq<Tree>, depth: nat)
    requires Printable(a, depth) && Printable(b, depth)
    ensures Printable(a + b, depth)
  {
  }

  lemma GroupsAreRead(groups: seq<Group>)
    requires GroupsFit(groups)
    ensures var trees := [Section("Groups", GroupTrees(groups))]; Parse(Print(trees)) == Got(trees, |Print(trees)|)
  {
    GroupsPrintable(groups);
    SectionFits("Groups", GroupTrees(groups));
    hide List, Shaped, AllClean;
    PrintRoundTrip([Section("Groups", GroupTrees(groups))]);
  }

  lemma SectionFits(name: string, children: seq<Tree>)
    requires Checked(name, 64) && Printable(children, 1)
    ensures Printable([Section(name, children)], 0)
    ensures Count([Section(name, children)]) == 1 + Count(children)
  {
    assert Count([Section(name, children)][1..]) == 0;
  }

  lemma AdminPrintable(admin: Admin)
    requires AdminFits(admin)
    ensures Printable([AdminTree(admin)], 1)
    ensures Count([AdminTree(admin)]) == 4
  {
    DecimalPlain(admin.level);
    var children := AdminTree(admin).children;
    assert Count(children[3..]) == 0 && children[2..][1..] == children[3..];
    assert Count(children[2..]) == 1 && children[1..][1..] == children[2..];
    assert Count(children[1..]) == 2;
    assert Count(children) == 3;
    assert Count([AdminTree(admin)][1..]) == 0;
  }

  lemma {:induction false} AdminsPrintable(admins: seq<Admin>)
    requires forall i :: 0 <= i < |admins| ==> AdminFits(admins[i])
    ensures Printable(AdminTrees(admins), 1) && Count(AdminTrees(admins)) == 4 * |admins|
    decreases |admins|
  {
    hide AdminTree, AdminFits;
    if admins != [] {
      AdminPrintable(admins[0]);
      AdminsPrintable(admins[1..]);
      PrintableJoin([AdminTree(admins[0])], AdminTrees(admins[1..]), 1);
      CountJoin([AdminTree(admins[0])], AdminTrees(admins[1..]));
    }
  }

  lemma AdminsAreRead(admins: seq<Admin>)
    requires AdminsFit(admins)
    ensures var trees := [Section("Admins", AdminTrees(admins))]; Parse(Print(trees)) == Got(trees, |Print(trees)|)
  {
    AdminsPrintable(admins);
    SectionFits("Admins", AdminTrees(admins));
    hide List, Shaped, AllClean;
    PrintRoundTrip([Section("Admins", AdminTrees(admins))]);
  }
}
