/** Scanning a function's exception table for the landing pad of a thrown exception. */
module EhTable {
  import opened Leb128
  import opened Streams

  datatype CallSite = CallSite(start: nat, length: nat, landingPad: nat, action: nat)

  datatype ScanResult = ScanResult(typeIndex: nat, landingPad: nat, isCaught: bool)

  /** The compiler emits offsets within a function, far below the reader's limit. */
  predicate Small(c: CallSite) {
    c.start < TWO31 && c.length < TWO31 && c.landingPad < TWO31 && c.action < TWO31
  }

  function EncodeSite(c: CallSite): seq<byte> {
    EncodeU(c.start) + EncodeU(c.length) + EncodeU(c.landingPad) + EncodeU(c.action)
  }

  function EncodeSites(sites: seq<CallSite>): seq<byte> {
    if sites == [] then [] else EncodeSite(sites[0]) + EncodeSites(sites[1..])
  }

  // ---------------------------------------------------------------- the action table

  ghost function Length(data: seq<byte>, pos: nat): nat
    decreases |data| - pos
  {
    if pos >= |data| || data[pos] < 128 then 1 else 1 + Length(data, pos + 1)
  }

  /** The action records from pos on, each a type index and the offset of the next, have these types. */
  ghost predicate ActionList(table: seq<byte>, pos: int, types: seq<byte>)
    decreases |types|
  {
    && types != [] && 0 <= pos && pos + 1 < |table| && table[pos] == types[0]
    && if table[pos + 1] == 0 then |types| == 1 else
         var n := Length(table, pos + 1);
         n <= 10 && Encoded(table, pos + 1, n) &&
         ActionList(table, pos + 1 + Wrap64(ValueS(table, pos + 1, n)), types[1..])
  }

  /** The first type of the list whose catch clause takes the exception; 0 if there is none. */
  function FirstCatch(types: seq<byte>, catches: nat -> bool): byte {
    if types == [] then 0
    else if types[0] > 0 && catches(types[0]) then types[0]
    else FirstCatch(types[1..], catches)
  }

  /** EHTable::MatchActionTable.  `catches` says which type indices name a catch clause for the exception:
      one without a type, or with a supertype. */
  method MatchActionTable(table: seq<byte>, entry: nat, catches: nat -> bool, ghost types: seq<byte>)
    returns (index: byte)
    requires entry > 0 && ActionList(table, entry - 1, types)
    ensures index == FirstCatch(types, catches)
  {
    var pos: int := entry - 1;
    ghost var rest := types;
    while true
      invariant ActionList(table, pos, rest) && FirstCatch(rest, catches) == FirstCatch(types, catches)
      decreases |rest|
    {
      var typeIndex := table[pos];
      pos := pos + 1;
      if typeIndex > 0 && catches(typeIndex) {
        return typeIndex;
      }
      if table[pos] == 0 {
        return 0;
      }
      var offset := ReadSLEB128(table, pos, Length(table, pos));
      pos := pos + offset;
      rest := rest[1..];
    }
  }

  // ---------------------------------------------------------------- the call-site table

  /** A call site stops the search: it covers the address and has a landing pad that takes the exception. */
  predicate Stops(c: CallSite, ipOffset: nat, caught: nat -> byte) {
    c.start <= ipOffset < c.start + c.length && c.landingPad != 0 && (c.action == 0 || caught(c.action) > 0)
  }

  /** First-match search on the list of call sites.  A pad without an action is a cleanup, not a catch. */
  function Search(sites: seq<CallSite>, ipOffset: nat, startIp: nat, caught: nat -> byte): ScanResult {
    if sites == [] then ScanResult(0, 0, false)
    else if !Stops(sites[0], ipOffset, caught) then Search(sites[1..], ipOffset, startIp, caught)
    else if sites[0].action == 0 then ScanResult(0, startIp + sites[0].landingPad, false)
    else ScanResult(caught(sites[0].action), startIp + sites[0].landingPad, true)
  }

  /** One entry of the table. */
  method ReadSite(data: seq<byte>, pos: nat, ghost c: CallSite) returns (site: CallSite, pos': nat)
    requires Small(c) && At(data, pos, EncodeSite(c))
    ensures site == c && pos' == pos + |EncodeSite(c)|
  {
    ghost var a, b, d, e := EncodeU(c.start), EncodeU(c.length), EncodeU(c.landingPad), EncodeU(c.action);
    AtParts(data, pos, a + b + d, e);
    AtParts(data, pos, a + b, d);
    AtParts(data, pos, a, b);
    var start, p1 := ReadBackU(data, pos, c.start);
    var length, p2 := ReadBackU(data, p1, c.length);
    var landingPad, p3 := ReadBackU(data, p2, c.landingPad);
    var action, p4 := ReadBackU(data, p3, c.action);
    site, pos' := CallSite(start, length, landingPad, action), p4;
  }

  /** Every action entry of the sites starts a well-formed action list. */
  ghost predicate Actions(sites: seq<CallSite>, table: seq<byte>, lists: nat -> seq<byte>) {
    forall i :: 0 <= i < |sites| && sites[i].action > 0 ==>
      ActionList(table, sites[i].action - 1, lists(sites[i].action))
  }

  /** EHTable::ScanEHTable: reading the encoded table byte by byte finds what first-match search finds on
      the list it encodes. */
  method ScanEHTable(data: seq<byte>, table: seq<byte>, ipOffset: nat, startIp: nat, catches: nat -> bool,
                     ghost sites: seq<CallSite>, ghost lists: nat -> seq<byte>) returns (result: ScanResult)
    requires data == EncodeSites(sites) && Actions(sites, table, lists)
    requires forall i :: 0 <= i < |sites| ==> Small(sites[i])
    ensures result == Search(sites, ipOffset, startIp, a => FirstCatch(lists(a), catches))
  {
    ghost var caught: nat -> byte := a => FirstCatch(lists(a), catches);
    result := ScanResult(0, 0, false);
    var pos: nat := 0;
    ghost var rest := sites;
    while pos < |data|
      invariant pos <= |data| && data[pos..] == EncodeSites(rest) && Actions(rest, table, lists)
      invariant forall i :: 0 <= i < |rest| ==> Small(rest[i])
      invariant Search(rest, ipOffset, startIp, caught) == Search(sites, ipOffset, startIp, caught)
      invariant result == ScanResult(0, 0, false)
      decreases |rest|
    {
      ghost var was := pos;
      SiteAt(data, pos, rest);
      var site;
      site, pos := ReadSite(data, pos, rest[0]);
      if site.start <= ipOffset < site.start + site.length && site.landingPad != 0 {
        var landingPad := startIp + site.landingPad;
        if site.action == 0 {
          return ScanResult(0, landingPad, false);
        }
        var index := MatchActionTable(table, site.action, catches, lists(site.action));
        if index > 0 {
          return ScanResult(index, landingPad, true);
        }
      }
      rest := rest[1..];
    }
    EncodesEmpty(rest);
  }

  lemma SiteAt(data: seq<byte>, pos: nat, rest: seq<CallSite>)
    requires pos < |data| && data[pos..] == EncodeSites(rest)
    ensures rest != [] && At(data, pos, EncodeSite(rest[0]))
    ensures data[pos + |EncodeSite(rest[0])|..] == EncodeSites(rest[1..])
  {
    var a, b := EncodeSite(rest[0]), EncodeSites(rest[1..]);
    assert data[pos..] == a + b;
    assert data[pos..pos + |a|] == (a + b)[..|a|] == a;
    assert data[pos + |a|..] == (a + b)[|a|..] == b;
  }

  lemma EncodesEmpty(sites: seq<CallSite>)
    ensures sites != [] ==> EncodeSites(sites) != []
  {
  }
}
