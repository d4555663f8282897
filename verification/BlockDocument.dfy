/**
 Block documents: which block lists are accepted as a baseline.

 `InitialBlocks` walks the list once, keying positions by a NUL-joined string, and then walks every parent
 chain. It accepts exactly the lists that form a forest: valid identities, unique ids, unique places, and
 a rank that falls from every block to its parent.
 */
module BlockDocument {
  import opened Wrappers
  import CanonicalJson

  type Json = CanonicalJson.Value

  const MAX_SAFE_INTEGER: nat := 0x1F_FFFF_FFFF_FFFF

  datatype Block = Block(blockId: string, parentBlockId: Option<string>, containerSlot: string, position: int,
                         kind: string, baseData: Json, localeData: Option<Json>, adapterData: Option<Json>)

  type BlockMap = map<string, Block>

  datatype Document = Document(fingerprint: string, sourceLocale: string, locale: string, blocks: seq<Block>)

  datatype DocumentError =
    | MissingFingerprint | MissingSourceLocale | MissingLocale
    | InvalidBlockId | InvalidParentId | InvalidStructure
    | DuplicateBlockId | DuplicatePosition | ParentCycle | MissingParent

  // ---------------------------------------------------------------------------------------------
  // What is accepted
  // ---------------------------------------------------------------------------------------------

  predicate IsHex(c: char) {
    '0' <= c <= '9' || 'a' <= c <= 'f' || 'A' <= c <= 'F'
  }

  predicate IsUuid(s: string) {
    && |s| == 36
    && (forall i | 0 <= i < 36 :: if i == 8 || i == 13 || i == 18 || i == 23 then s[i] == '-' else IsHex(s[i]))
    && '1' <= s[14] <= '8'
    && s[19] in "89abAB"
  }

  /** The characters that trimming removes. */
  predicate IsWhitespace(c: char) {
    c in "\t\n\r \U{000B}\U{000C}\U{00A0}\U{1680}\U{2028}\U{2029}\U{202F}\U{205F}\U{3000}\U{FEFF}"
    || '\U{2000}' <= c <= '\U{200A}'
  }

  predicate Blank(s: string) {
    forall i | 0 <= i < |s| :: IsWhitespace(s[i])
  }

  function IdentityError(block: Block): Option<DocumentError> {
    if !IsUuid(block.blockId) then Some(InvalidBlockId)
    else if block.parentBlockId.Some? && !IsUuid(block.parentBlockId.value) then Some(InvalidParentId)
    else if block.containerSlot == "" || block.kind == "" || !(0 <= block.position <= MAX_SAFE_INTEGER) then
      Some(InvalidStructure)
    else None
  }

  function HeaderError(snapshot: Document): Option<DocumentError> {
    if snapshot.fingerprint == "" then Some(MissingFingerprint)
    else if Blank(snapshot.sourceLocale) then Some(MissingSourceLocale)
    else if Blank(snapshot.locale) then Some(MissingLocale)
    else None
  }

  const HEX_DIGITS := "0123456789abcdefABCDEF"

  predicate IsHexText(s: string, n: nat) {
    |s| == n && forall c | c in s :: c in HEX_DIGITS
  }

  /** The groups of a UUID, with the digits of its version and variant in front of what follows them. */
  datatype Groups = Groups(timeLow: string, timeMid: string, version: char, timeHigh: string, variant: char, clock: string,
                           node: string)
  {
    predicate AreUuid() {
      && IsHexText(timeLow, 8) && IsHexText(timeMid, 4) && version in "12345678" && IsHexText(timeHigh, 3)
      && variant in "89abAB" && IsHexText(clock, 3) && IsHexText(node, 12)
    }

    function Text(): string {
      timeLow + "-" + timeMid + "-" + [version] + timeHigh + "-" + [variant] + clock + "-" + node
    }
  }

  lemma HexDigits(c: char)
    ensures IsHex(c) <==> c in HEX_DIGITS
  {
    assert HEX_DIGITS[0] == '0' && HEX_DIGITS[1] == '1' && HEX_DIGITS[2] == '2' && HEX_DIGITS[3] == '3' && HEX_DIGITS[4] == '4'
        && HEX_DIGITS[5] == '5' && HEX_DIGITS[6] == '6' && HEX_DIGITS[7] == '7' && HEX_DIGITS[8] == '8' && HEX_DIGITS[9] == '9';
    assert HEX_DIGITS[10] == 'a' && HEX_DIGITS[11] == 'b' && HEX_DIGITS[12] == 'c' && HEX_DIGITS[13] == 'd'
        && HEX_DIGITS[14] == 'e' && HEX_DIGITS[15] == 'f';
    assert HEX_DIGITS[16] == 'A' && HEX_DIGITS[17] == 'B' && HEX_DIGITS[18] == 'C' && HEX_DIGITS[19] == 'D'
        && HEX_DIGITS[20] == 'E' && HEX_DIGITS[21] == 'F';
  }

  lemma AllHexDigits(s: string, from: nat, to: nat)
    requires from <= to <= |s|
    ensures IsHexText(s[from..to], to - from) <==> forall i | from <= i < to :: IsHex(s[i])
  {
    forall c: char
      ensures IsHex(c) <==> c in HEX_DIGITS
    {
      HexDigits(c);
    }
    hide IsHex;
    assert forall i | from <= i < to :: s[i] == s[from..to][i - from] && s[i] in s[from..to];
    assert IsHexText(s[from..to], to - from) <==> forall i | from <= i < to :: s[i] in HEX_DIGITS;
  }

  function GroupsOf(s: string): Groups
    requires |s| == 36
  {
    Groups(s[0..8], s[9..13], s[14], s[15..18], s[19], s[20..23], s[24..36])
  }

  lemma VersionDigits(c: char)
    ensures '1' <= c <= '8' <==> c in "12345678"
  {
    var digits := "12345678";
    assert digits[0] == '1' && digits[1] == '2' && digits[2] == '3' && digits[3] == '4' && digits[4] == '5'
        && digits[5] == '6' && digits[6] == '7' && digits[7] == '8';
  }

  lemma GroupsAreUuid(s: string)
    requires |s| == 36
    ensures IsUuid(s) <==> GroupsOf(s).AreUuid() && s[8] == s[13] == s[18] == s[23] == '-'
  {
    AllHexDigits(s, 0, 8);
    AllHexDigits(s, 9, 13);
    AllHexDigits(s, 15, 18);
    AllHexDigits(s, 20, 23);
    AllHexDigits(s, 24, 36);
    VersionDigits(s[14]);
    HexDigits(s[19]);
    hide IsHexText;
  }

  /** The ids that are accepted are the texts of UUID groups, each in one way. */
  lemma UuidsAreGroups(s: string)
    ensures IsUuid(s) ==> GroupsOf(s).AreUuid() && GroupsOf(s).Text() == s
    ensures forall groups: Groups :: groups.AreUuid() && groups.Text() == s ==> IsUuid(s) && groups == GroupsOf(s)
  {
    if |s| == 36 {
      GroupsAreUuid(s);
    }
    hide IsUuid;
    forall groups: Groups | groups.AreUuid() && groups.Text() == s
      ensures |s| == 36 && groups == GroupsOf(s) && s[8] == s[13] == s[18] == s[23] == '-'
    {
      TextOfGroups(groups);
    }
    if |s| == 36 && IsUuid(s) {
      assert GroupsOf(s).Text() == s;
    }
  }

  lemma TextOfGroups(groups: Groups)
    requires groups.AreUuid()
    ensures var s := groups.Text();
            |s| == 36 && groups == GroupsOf(s) && s[8] == s[13] == s[18] == s[23] == '-'
  {
    var s := groups.Text();
    assert |s| == 36;
    assert s[0..8] == groups.timeLow && s[9..13] == groups.timeMid && s[15..18] == groups.timeHigh;
    assert s[20..23] == groups.clock && s[24..36] == groups.node;
  }

  /** A block is accepted by itself when its ids are UUIDs and it says where it stands and of what kind it is. */
  lemma IdentityExactly(block: Block)
    ensures IdentityError(block).None? <==>
              && (forall id | id == block.blockId || Some(id) == block.parentBlockId :: IsUuid(id))
              && block.containerSlot != "" && block.kind != "" && 0 <= block.position <= MAX_SAFE_INTEGER
    ensures IdentityError(block) == Some(InvalidBlockId) <==> !IsUuid(block.blockId)
    ensures IdentityError(block) == Some(InvalidParentId) <==>
              IsUuid(block.blockId) && block.parentBlockId.Some? && !IsUuid(block.parentBlockId.value)
  {
    hide IsUuid;
  }

  /** A header is complete when its fingerprint is not empty and no locale is only white space; the first lack is reported. */
  lemma HeaderExactly(snapshot: Document)
    ensures HeaderError(snapshot) ==
            if snapshot.fingerprint == "" then Some(MissingFingerprint)
            else if !exists c | c in snapshot.sourceLocale :: !IsWhitespace(c) then Some(MissingSourceLocale)
            else if !exists c | c in snapshot.locale :: !IsWhitespace(c) then Some(MissingLocale)
            else None
  {
    BlankIsWhitespace(snapshot.sourceLocale);
    BlankIsWhitespace(snapshot.locale);
    hide Blank, IsWhitespace;
  }

  lemma BlankIsWhitespace(s: string)
    ensures Blank(s) <==> forall c | c in s :: IsWhitespace(c)
  {
    hide IsWhitespace;
    assert forall i | 0 <= i < |s| :: s[i] in s;
  }

  /** Where a block stands: its parent, the slot in it, and the position in the slot. */
  function Place(block: Block): (Option<string>, string, int) {
    (block.parentBlockId, block.containerSlot, block.position)
  }

  /** The blocks by id; of two blocks with one id the last counts. */
  function ById(blocks: seq<Block>): BlockMap {
    if blocks == [] then map[]
    else
      var last := blocks[|blocks| - 1];
      ById(blocks[..|blocks| - 1])[last.blockId := last]
  }

  ghost predicate Ranked(blocks: BlockMap, rank: map<string, nat>) {
    forall id :: id in blocks ==>
      && id in rank
      && (blocks[id].parentBlockId.Some? ==>
            && blocks[id].parentBlockId.value in blocks
            && blocks[id].parentBlockId.value in rank
            && rank[blocks[id].parentBlockId.value] < rank[id])
  }

  // ---------------------------------------------------------------------------------------------
  // The position key
  // ---------------------------------------------------------------------------------------------

  function Decimal(n: nat): (s: string)
    ensures s != [] && forall i :: 0 <= i < |s| ==> '0' <= s[i] <= '9'
  {
    var digit := ('0' as int + n % 10) as char;
    if n < 10 then [digit] else Decimal(n / 10) + [digit]
  }

  function DecimalValue(s: string): int {
    if s == [] then 0 else 10 * DecimalValue(s[..|s| - 1]) + (s[|s| - 1] as int - '0' as int)
  }

  lemma {:induction false} DecimalReadsBack(n: nat)
    ensures DecimalValue(Decimal(n)) == n
  {
    if n >= 10 {
      DecimalReadsBack(n / 10);
      assert Decimal(n)[..|Decimal(n)| - 1] == Decimal(n / 10);
    }
  }

  function PositionKey(block: Block): string
    requires block.position >= 0
  {
    ParentText(block) + "\0" + block.containerSlot + "\0"
    + Decimal(block.position)
  }

  predicate NoNul(s: string) {
    forall i :: 0 <= i < |s| ==> s[i] != '\0'
  }

  /** Two NULs split a key in one way when neither the first part nor the last holds one. */
  lemma SplitAtNuls(p: string, s: string, d: string, q: string, t: string, e: string)
    requires p + "\0" + s + "\0" + d == q + "\0" + t + "\0" + e
    requires NoNul(p) && NoNul(q) && NoNul(d) && NoNul(e)
    ensures p == q && s == t && d == e
  {
    var whole := p + "\0" + s + "\0" + d;
    assert whole[|p|] == '\0' && whole[|q|] == '\0';
    assert |p| == |q| by {
      assert forall i :: 0 <= i < |p| ==> whole[i] == p[i];
      assert forall i :: 0 <= i < |q| ==> whole[i] == q[i];
    }
    var m, n := |whole| - |d|, |whole| - |e|;
    assert whole[m - 1] == '\0' && whole[n - 1] == '\0';
    assert |d| == |e| by {
      assert forall i :: m <= i < |whole| ==> whole[i] == d[i - m];
      assert forall i :: n <= i < |whole| ==> whole[i] == e[i - n];
    }
    assert p == whole[..|p|] && q == whole[..|p|];
    assert d == whole[m..] && e == whole[m..];
    assert s == whole[|p| + 1..m - 1] && t == whole[|p| + 1..m - 1];
  }

  function ParentText(block: Block): string {
    if block.parentBlockId.Some? then block.parentBlockId.value else ""
  }

  lemma ParentTextIsFaithful(a: Block, b: Block)
    requires IdentityError(a).None? && IdentityError(b).None?
    ensures NoNul(ParentText(a)) && (ParentText(a) == ParentText(b) <==> a.parentBlockId == b.parentBlockId)
  {
  }

  /** Two valid blocks share a key exactly when they share a place, even when slots contain NUL. */
  lemma PositionKeyIsInjective(a: Block, b: Block)
    requires IdentityError(a).None? && IdentityError(b).None?
    ensures PositionKey(a) == PositionKey(b) <==> Place(a) == Place(b)
  {
    ParentTextIsFaithful(a, b);
    ParentTextIsFaithful(b, a);
    if PositionKey(a) == PositionKey(b) {
      hide IsUuid;
      SplitAtNuls(ParentText(a), a.containerSlot, Decimal(a.position), ParentText(b), b.containerSlot, Decimal(b.position));
      DecimalReadsBack(a.position);
      DecimalReadsBack(b.position);
    }
  }

  // ---------------------------------------------------------------------------------------------
  // The parent walk
  // ---------------------------------------------------------------------------------------------

  /** Follows the parents of `id`; `visiting` holds the blocks already passed. */
  function Visit(blocks: BlockMap, id: string, visiting: set<string>): Option<DocumentError>
    requires id in blocks && visiting <= blocks.Keys
    decreases |blocks.Keys - visiting|
  {
    if id in visiting then Some(ParentCycle)
    else
      match blocks[id].parentBlockId
      case None => None
      case Some(parent) =>
        if parent !in blocks then Some(MissingParent)
        else
          VisitingGrows(blocks.Keys, visiting, id);
          Visit(blocks, parent, visiting + {id})
  }

  lemma VisitingGrows(all: set<string>, visiting: set<string>, id: string)
    requires id in all && id !in visiting
    ensures |all - (visiting + {id})| < |all - visiting|
  {
    assert all - (visiting + {id}) == (all - visiting) - {id};
  }

  /** The parent chain of `id` reaches a root after `k` steps. */
  ghost predicate RootedAfter(blocks: BlockMap, id: string, k: nat)
    decreases k
  {
    && id in blocks
    && if k == 0 then blocks[id].parentBlockId.None?
       else blocks[id].parentBlockId.Some? && RootedAfter(blocks, blocks[id].parentBlockId.value, k - 1)
  }

  lemma {:induction false} RootedOnce(blocks: BlockMap, id: string, j: nat, k: nat)
    requires RootedAfter(blocks, id, j) && RootedAfter(blocks, id, k)
    ensures j == k
    decreases k
  {
    if j > 0 && k > 0 {
      RootedOnce(blocks, blocks[id].parentBlockId.value, j - 1, k - 1);
    }
  }

  lemma {:induction false} VisitedIsRooted(blocks: BlockMap, id: string, visiting: set<string>) returns (k: nat)
    requires id in blocks && visiting <= blocks.Keys && Visit(blocks, id, visiting).None?
    ensures RootedAfter(blocks, id, k)
    decreases |blocks.Keys - visiting|
  {
    if blocks[id].parentBlockId.None? {
      k := 0;
    } else {
      VisitingGrows(blocks.Keys, visiting, id);
      var parent := VisitedIsRooted(blocks, blocks[id].parentBlockId.value, visiting + {id});
      k := parent + 1;
    }
  }

  /** A rank that falls along the walk leaves no room for a cycle. */
  lemma {:induction false} RankedIsVisited(blocks: BlockMap, rank: map<string, nat>, id: string, visiting: set<string>)
    requires Ranked(blocks, rank) && id in blocks && visiting <= blocks.Keys
    requires forall v :: v in visiting ==> rank[id] < rank[v]
    ensures Visit(blocks, id, visiting).None?
    decreases rank[id]
  {
    if blocks[id].parentBlockId.Some? {
      RankedIsVisited(blocks, rank, blocks[id].parentBlockId.value, visiting + {id});
    }
  }

  ghost function StepsToRoot(blocks: BlockMap, id: string): nat
    requires exists k: nat :: RootedAfter(blocks, id, k)
  {
    var k: nat :| RootedAfter(blocks, id, k);
    k
  }

  /** All parent chains can be walked exactly when the blocks have a rank: the number of steps to the root. */
  lemma WalksAreRanks(blocks: BlockMap)
    ensures (forall id :: id in blocks ==> Visit(blocks, id, {}).None?) <==> (exists rank :: Ranked(blocks, rank))
  {
    if forall id :: id in blocks ==> Visit(blocks, id, {}).None? {
      forall id | id in blocks
        ensures exists k: nat :: RootedAfter(blocks, id, k)
      {
        var k := VisitedIsRooted(blocks, id, {});
      }
      var rank := map id | id in blocks :: StepsToRoot(blocks, id);
      forall id | id in blocks && blocks[id].parentBlockId.Some?
        ensures blocks[id].parentBlockId.value in blocks && rank[blocks[id].parentBlockId.value] < rank[id]
      {
        var parent := blocks[id].parentBlockId.value;
        assert RootedAfter(blocks, id, rank[id]) && rank[id] > 0;
        RootedOnce(blocks, parent, rank[parent], rank[id] - 1);
      }
      assert Ranked(blocks, rank);
    }
    if rank :| Ranked(blocks, rank) {
      forall id | id in blocks
        ensures Visit(blocks, id, {}).None?
      {
        RankedIsVisited(blocks, rank, id, {});
      }
    }
  }

  // ---------------------------------------------------------------------------------------------
  // Loading a snapshot
  // ---------------------------------------------------------------------------------------------

  ghost predicate Valid(list: seq<Block>, n: nat)
    requires n <= |list|
  {
    forall i :: 0 <= i < n ==> IdentityError(list[i]).None?
  }

  ghost function Ids(list: seq<Block>, n: nat): set<string>
    requires n <= |list|
  {
    set i | 0 <= i < n :: list[i].blockId
  }

  ghost function Keys(list: seq<Block>, n: nat): set<string>
    requires n <= |list| && Valid(list, n)
  {
    set i | 0 <= i < n :: PositionKey(list[i])
  }

  ghost predicate Distinct(list: seq<Block>, n: nat)
    requires n <= |list|
  {
    && (forall i, j :: 0 <= i < j < n ==> list[i].blockId != list[j].blockId)
    && (forall i, j :: 0 <= i < j < n ==> Place(list[i]) != Place(list[j]))
  }

  lemma DistinctNext(list: seq<Block>, n: nat)
    requires n < |list| && Valid(list, n + 1) && Distinct(list, n)
    ensures Distinct(list, n + 1) <==> list[n].blockId !in Ids(list, n) && PositionKey(list[n]) !in Keys(list, n)
  {
    hide PositionKey, Place, IsUuid;
    forall i | 0 <= i < n
      ensures PositionKey(list[i]) == PositionKey(list[n]) <==> Place(list[i]) == Place(list[n])
    {
      PositionKeyIsInjective(list[i], list[n]);
    }
    if PositionKey(list[n]) in Keys(list, n) {
      var i :| 0 <= i < n && PositionKey(list[i]) == PositionKey(list[n]);
      assert Place(list[i]) == Place(list[n]);
    }
    if list[n].blockId in Ids(list, n) {
      var i :| 0 <= i < n && list[i].blockId == list[n].blockId;
    }
  }

  lemma SetsGrow(list: seq<Block>, n: nat)
    requires n < |list| && Valid(list, n) && IdentityError(list[n]).None?
    ensures Valid(list, n + 1)
    ensures Ids(list, n + 1) == Ids(list, n) + {list[n].blockId}
    ensures Keys(list, n + 1) == Keys(list, n) + {PositionKey(list[n])}
    ensures ById(list[..n + 1]) == ById(list[..n])[list[n].blockId := list[n]]
  {
    hide PositionKey, IdentityError;
    assert list[..n + 1][..n] == list[..n];
  }

  lemma IdentityHasPosition(block: Block)
    requires IdentityError(block).None?
    ensures block.position >= 0
  {
  }

  lemma PartOfWhole(list: seq<Block>, n: nat)
    requires n < |list|
    ensures Valid(list, |list|) ==> IdentityError(list[n]).None?
    ensures Distinct(list, |list|) ==> Distinct(list, n + 1)
  {
  }

  /** Records the blocks by id, refusing the first one that is invalid or takes an id or a place twice. */
  method IndexBlocks(list: seq<Block>) returns (r: Result<BlockMap, DocumentError>)
    ensures r.Ok? <==> Valid(list, |list|) && Distinct(list, |list|)
    ensures r.Ok? ==> r.value == ById(list)
  {
    var blocks: BlockMap := map[];
    var occupied: set<string> := {};
    assert Valid(list, 0) && Distinct(list, 0) && Ids(list, 0) == {} && Keys(list, 0) == {} && ById(list[..0]) == map[];
    hide *;
    for n := 0 to |list|
      invariant Valid(list, n) && Distinct(list, n)
      invariant blocks == ById(list[..n]) && blocks.Keys == Ids(list, n) && occupied == Keys(list, n)
    {
      var block := list[n];
      PartOfWhole(list, n);
      if IdentityError(block).Some? {
        return Err(IdentityError(block).value);
      }
      IdentityHasPosition(block);
      SetsGrow(list, n);
      DistinctNext(list, n);
      if block.blockId in blocks {
        return Err(DuplicateBlockId);
      }
      var key := PositionKey(block);
      if key in occupied {
        return Err(DuplicatePosition);
      }
      occupied := occupied + {key};
      blocks := blocks[block.blockId := block];
    }
    assert list[..|list|] == list;
    return Ok(blocks);
  }

  /** The blocks are valid and distinct, and a rank falls from every block to its parent. */
  ghost predicate IsForest(blocks: seq<Block>) {
    Valid(blocks, |blocks|) && Distinct(blocks, |blocks|) && exists rank :: Ranked(ById(blocks), rank)
  }

  method InitialBlocks(snapshot: Document) returns (r: Result<BlockMap, DocumentError>)
    ensures r.Ok? <==> HeaderError(snapshot).None? && IsForest(snapshot.blocks)
    ensures r.Ok? ==> r.value == ById(snapshot.blocks)
  {
    if HeaderError(snapshot).Some? {
      return Err(HeaderError(snapshot).value);
    }
    r := IndexBlocks(snapshot.blocks);
    if r.Err? {
      return;
    }
    var blocks := r.value;
    WalksAreRanks(blocks);
    var pending := blocks.Keys;
    while pending != {}
      invariant pending <= blocks.Keys
      invariant forall id :: id in blocks && id !in pending ==> Visit(blocks, id, {}).None?
      decreases |pending|
    {
      var id :| id in pending;
      pending := pending - {id};
      var failure := Visit(blocks, id, {});
      if failure.Some? {
        return Err(failure.value);
      }
    }
  }
}
