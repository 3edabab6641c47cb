/** Bans as records and as the entries of a file. */
module Bans {
  import opened Decimals
  import opened Timestamps

  type Account = nat

  const Base: nat := 76561197960265728
  const LastAccount: nat := 76561197960265728 + 0xFFFF_FFFF
  const BanLimit: nat := 4096

  // ----- identities ------------------------------------------------------------------------

  predicate ValidIdentity(account: nat) {
    Base < account <= LastAccount
  }

  function Number(text: string): Option<nat> {
    Unsigned(text, 0xFFFF_FFFF_FFFF_FFFF)
  }

  function Individual(account: Option<nat>): Option<Account> {
    if account.Some? && ValidIdentity(account.value) then account else None
  }

  /** The account of STEAM_X:Y:Z, [U:1:N] or a plain number. */
  function ParseIdentity(text: string): (account: Option<Account>)
    ensures account.Some? ==> ValidIdentity(account.value)
  {
    if "STEAM_" <= text then
      if |text| < 11 || text[6] !in {'0', '1'} || text[7] != ':' || text[8] !in {'0', '1'} || text[9] != ':' then None
      else
        var half := Number(text[10..]);
        if half.None? || half.value > 0xFFFF_FFFF / 2 then None
        else Individual(Some(Base + half.value * 2 + if text[8] == '1' then 1 else 0))
    else if "[U:" <= text then
      if !("[U:1:" <= text) || |text| < 6 || text[|text| - 1] != ']' then None
      else
        var number := Number(text[5..|text| - 1]);
        if number.None? || number.value > 0xFFFF_FFFF then None else Individual(Some(Base + number.value))
    else Individual(Number(text))
  }

  /** A written account is read back. */
  lemma IdentityInverse(account: Account)
    requires ValidIdentity(account)
    ensures ParseIdentity(Decimal(account)) == Some(account)
  {
    DecimalReads(account);
    assert '0' <= Decimal(account)[0] <= '9';
    assert "STEAM_"[0] == 'S' && "[U:"[0] == '[';
  }

  lemma NumberReads(n: nat)
    requires n <= 0xFFFF_FFFF_FFFF_FFFF
    ensures Number(Decimal(n)) == Some(n)
  {
    DecimalReads(n);
  }

  /** The account number of a person may be written in brackets. */
  lemma BracketsRead(number: nat)
    requires 0 < number <= 0xFFFF_FFFF
    ensures ParseIdentity("[U:1:" + Decimal(number) + "]") == Some(76561197960265728 + number)
  {
    var text := "[U:1:" + Decimal(number) + "]";
    NumberReads(number);
    DecimalReads(number);
    assert "STEAM_"[0] == 'S' && text[0] == '[' && !("STEAM_" <= text);
    assert text[..5] == "[U:1:" && "[U:" <= text[..5] <= text;
    assert text[5..|text| - 1] == Decimal(number);
    hide Decimal, Number;
  }

  /** Or in two halves, the last bit before the rest; the universe may be given as 0 or 1. */
  lemma HalvesRead(universe: char, bit: nat, half: nat)
    requires universe in {'0', '1'} && bit < 2 && 0 < 2 * half + bit <= 0xFFFF_FFFF
    ensures ParseIdentity("STEAM_" + [universe] + ":" + [Digit(bit)] + ":" + Decimal(half)) == Some(76561197960265728 + 2 * half + bit)
  {
    var front := "STEAM_" + [universe] + ":" + [Digit(bit)] + ":";
    var text := front + Decimal(half);
    NumberReads(half);
    DecimalReads(half);
    assert front[..6] == "STEAM_" && "STEAM_" <= front <= text;
    assert text[10..] == Decimal(half);
    assert text[6] == universe && text[8] == Digit(bit);
    hide Decimal, Number;
  }

  // ----- records and entries ------------------------------------------------------------------

  datatype Ban = Ban(account: Account, created: int, expires: Option<int>, reason: string, actor: string)

  /** An entry of the file, with whatever else somebody wrote into it. */
  datatype Entry = Entry(steamid: string, created: string, expires: Option<string>, reason: string, actor: string,
                         extra: map<string, string>)

  predicate SafeText(text: string, maximum: nat) {
    0 < |text| <= maximum && forall i :: 0 <= i < |text| ==> text[i] >= ' ' && text[i] != 127 as char
  }

  predicate ValidActor(actor: string) {
    actor == "server" || ParseIdentity(actor).Some?
  }

  predicate BanOk(ban: Ban) {
    && ValidIdentity(ban.account) && InRange(ban.created)
    && (ban.expires.Some? ==> InRange(ban.expires.value) && ban.created < ban.expires.value)
    && SafeText(ban.reason, 256) && ValidActor(ban.actor)
  }

  function ReadExpiry(expires: Option<string>): Option<Option<int>> {
    if expires.None? then Some(None)
    else if ParseUtc(expires.value).None? then None
    else Some(Some(ParseUtc(expires.value).value))
  }

  function ReadEntry(entry: Entry): Option<Ban> {
    var account, created, expires := ParseIdentity(entry.steamid), ParseUtc(entry.created), ReadExpiry(entry.expires);
    if account.None? || created.None? || expires.None? then None
    else if expires.value.Some? && expires.value.value <= created.value then None
    else if !SafeText(entry.reason, 256) || !ValidActor(entry.actor) then None
    else Some(Ban(account.value, created.value, expires.value, entry.reason, entry.actor))
  }

  type Table = map<Account, Ban>

  /** The bans of a list of entries; an account may not occur twice. */
  function ReadEntries(entries: seq<Entry>): Option<Table> {
    if entries == [] then Some(map[])
    else
      var rest, last := ReadEntries(entries[..|entries| - 1]), ReadEntry(entries[|entries| - 1]);
      if rest.None? || last.None? || last.value.account in rest.value then None
      else Some(rest.value[last.value.account := last.value])
  }

  function ReadTable(entries: seq<Entry>): Option<Table> {
    if |entries| > BanLimit then None else ReadEntries(entries)
  }

  predicate TableOk(bans: Table) {
    forall account :: account in bans ==> bans[account].account == account && BanOk(bans[account])
  }

  lemma ReadIsOk(entry: Entry)
    ensures ReadEntry(entry).Some? ==> BanOk(ReadEntry(entry).value)
  {
    ParseInverse(entry.created);
    if entry.expires.Some? { ParseInverse(entry.expires.value); }
    hide ParseUtc, Utc, ParseIdentity, InRange;
  }

  lemma {:induction false} ReadTableIsOk(entries: seq<Entry>)
    ensures ReadEntries(entries).Some? ==> TableOk(ReadEntries(entries).value)
    decreases |entries|
  {
    hide ReadEntry, BanOk;
    if entries != [] {
      ReadTableIsOk(entries[..|entries| - 1]);
      ReadIsOk(entries[|entries| - 1]);
    }
  }

  // ----- writing ------------------------------------------------------------------------------------

  function WriteExpiry(expires: Option<int>): Option<Option<string>> {
    if expires.None? then Some(None)
    else if Utc(expires.value).None? then None
    else Some(Some(Utc(expires.value).value))
  }

  /** The entry of a ban, over what the file had for the account; none if a time cannot be written. */
  function WriteEntry(ban: Ban, original: Option<Entry>): Option<Entry> {
    var created, expires := Utc(ban.created), WriteExpiry(ban.expires);
    if created.None? || expires.None? then None
    else Some(Entry(Decimal(ban.account), created.value, expires.value, ban.reason, ban.actor,
                    if original.Some? then original.value.extra else map[]))
  }

  /** A sound ban is always written, and read back as it was. */
  lemma EntryInverse(ban: Ban, original: Option<Entry>)
    requires BanOk(ban)
    ensures WriteEntry(ban, original).Some? && ReadEntry(WriteEntry(ban, original).value) == Some(ban)
  {
    hide ParseUtc, Utc, ParseIdentity, InRange, SafeText, Decimal, ValidActor, ValidIdentity;
    UtcInverse(ban.created);
    if ban.expires.Some? { UtcInverse(ban.expires.value); }
    IdentityInverse(ban.account);
  }

  /** An untouched ban keeps its entry, but for the spelling of its account. */
  lemma UntouchedEntry(entry: Entry)
    requires ReadEntry(entry).Some?
    ensures WriteEntry(ReadEntry(entry).value, Some(entry)) == Some(entry.(steamid := Decimal(ReadEntry(entry).value.account)))
  {
    ParseInverse(entry.created);
    if entry.expires.Some? { ParseInverse(entry.expires.value); }
    hide ParseUtc, Utc, ParseIdentity, InRange, SafeText, Decimal;
  }

  type Originals = map<Account, Entry>

  function Original(originals: Originals, account: Account): Option<Entry> {
    if account in originals then Some(originals[account]) else None
  }

  /** The entry of each account that was read. */
  function OriginalsOf(entries: seq<Entry>): Originals {
    if entries == [] then map[]
    else
      var rest, last := OriginalsOf(entries[..|entries| - 1]), entries[|entries| - 1];
      var account := ParseIdentity(last.steamid);
      if account.None? || account.value in rest then rest else rest[account.value := last]
  }

  lemma {:induction false} OriginalsRead(entries: seq<Entry>)
    requires ReadEntries(entries).Some?
    ensures OriginalsOf(entries).Keys == ReadEntries(entries).value.Keys
    ensures forall account :: account in OriginalsOf(entries) ==>
              ReadEntry(OriginalsOf(entries)[account]) == Some(ReadEntries(entries).value[account])
    decreases |entries|
  {
    hide ParseUtc, ParseIdentity, SafeText, ReadExpiry;
    if entries != [] { OriginalsRead(entries[..|entries| - 1]); }
  }

  predicate Lists(order: seq<Account>, bans: Table) {
    && (forall i :: 0 <= i < |order| ==> order[i] in bans)
    && forall i, j :: 0 <= i < j < |order| ==> order[i] != order[j]
  }

  /** The file lists the bans in the given order, each written over its original. */
  predicate Written(entries: seq<Entry>, order: seq<Account>, bans: Table, originals: Originals) {
    && |entries| == |order|
    && forall i :: 0 <= i < |order| ==>
         order[i] in bans && WriteEntry(bans[order[i]], Original(originals, order[i])) == Some(entries[i])
  }

  function Restricted(bans: Table, accounts: set<Account>): Table {
    map account | account in bans && account in accounts :: bans[account]
  }

  function Accounts(order: seq<Account>): set<Account> {
    set account | account in order
  }

  /** What was written reads back to the bans it was written from. */
  lemma {:induction false} WrittenReads(entries: seq<Entry>, order: seq<Account>, bans: Table, originals: Originals)
    requires TableOk(bans) && Lists(order, bans) && Written(entries, order, bans, originals)
    ensures ReadEntries(entries) == Some(Restricted(bans, Accounts(order)))
    decreases |entries|
  {
    hide WriteEntry, ReadEntry, BanOk;
    if entries == [] {
      assert Restricted(bans, Accounts(order)) == map[];
    } else {
      var n := |entries| - 1;
      WrittenReads(entries[..n], order[..n], bans, originals);
      EntryInverse(bans[order[n]], Original(originals, order[n]));
      hide Restricted;
      RestrictedStep(order, bans);
    }
  }

  lemma RestrictedStep(order: seq<Account>, bans: Table)
    requires order != [] && Lists(order, bans)
    ensures var n := |order| - 1;
            && order[n] !in Restricted(bans, Accounts(order[..n]))
            && Restricted(bans, Accounts(order)) == Restricted(bans, Accounts(order[..n]))[order[n] := bans[order[n]]]
  {
    assert order == order[..|order| - 1] + [order[|order| - 1]];
  }

  // ----- changes -------------------------------------------------------------------------------------

  lemma AddOk(bans: Table, ban: Ban)
    requires TableOk(bans) && BanOk(ban)
    ensures TableOk(bans[ban.account := ban])
  {
    hide BanOk;
  }

  lemma RemoveOk(bans: Table, account: Account)
    requires TableOk(bans)
    ensures TableOk(bans - {account})
  {
    hide BanOk;
  }

  /** The latest time that has a timestamp. */
  function LastTime(): int {
    DayNumber(Last()) * DaySeconds + 86399
  }

  /** 9999-12-31T23:59:59Z. */
  lemma LastTimeIs()
    ensures LastTime() == 253402300799
  {
    DayNumberIs(Last());
    hide DayNumber;
  }

  lemma RangeEnds(time: int)
    ensures InRange(time) <==> 0 <= time <= LastTime()
  {
    hide DayNumber;
  }
}
