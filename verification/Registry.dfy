/** The position registry (platform/registry.go) over the advertisers table
    (platform/db.go). Database calls may fail; a failed call has no effect. */
module Registry {
  import opened Wrappers
  import opened Positions
  import opened Versions
  import opened Sequences
  import Keywords

  /** An advertisers row, without the spent column (see Billing). */
  datatype Row = Row(position: Position, budget: real)

  // ----- what holds of the positions -----

  /** One of the IDs adv-1 to adv-n. */
  predicate IssuedUpTo(ids: Ids, id: string, n: nat) {
    1 <= ids.number(id) <= n && id == ids.of(ids.number(id))
  }

  lemma IdReads(ids: Ids, n: nat)
    ensures ids.number(ids.of(n)) == n && ids.of(n) != ""
  {
    assert ids.Law(n);
  }

  lemma NextIsFresh(ids: Ids, n: nat)
    ensures !IssuedUpTo(ids, ids.of(n + 1), n) && IssuedUpTo(ids, ids.of(n + 1), n + 1) && ids.of(n + 1) != ""
  {
    IdReads(ids, n + 1);
  }

  /** A position that spends another's budget names a present head that holds its own. */
  predicate HasHead(positions: map<string, Position>, id: string)
    requires id in positions
  {
    var head := positions[id].budgetId;
    head != "" ==> head in positions && positions[head].budgetId == ""
  }

  ghost predicate Headed(positions: map<string, Position>) {
    forall id :: id in positions ==> HasHead(positions, id)
  }

  ghost predicate Filed(ids: Ids, positions: map<string, Position>, n: nat) {
    forall id :: id in positions ==> positions[id].id == id && IssuedUpTo(ids, id, n)
  }

  ghost predicate RowsFiled(ids: Ids, rows: map<string, Row>, n: nat) {
    forall id :: id in rows ==> rows[id].position.id == id && IssuedUpTo(ids, id, n)
  }

  // ----- what happens under the lock -----

  /** The positions in memory, with the cached version, "" if there is none. */
  datatype Index = Index(positions: map<string, Position>, version: string)

  /** What a call does under one acquisition of the registry's lock. */
  datatype Step =
    | Put(p: Position)           // a registration's or an update's write
    | SecondWrite(p: Position)   // a group points a member at its head, and leaves the cached version
    | Remove(id: string)         // one delete of a rollback
    | Drop(id: string)           // a delete of a position with all that spend its budget
    | Ask                        // a request for the version

  function Apply(positions: map<string, Position>, step: Step): map<string, Position> {
    match step
    case Put(p) => positions[p.id := p]
    case SecondWrite(p) => positions[p.id := p]
    case Remove(id) => positions - {id}
    case Drop(id) => if id in positions then positions - Group(positions, id) else positions
    case Ask => positions
  }

  ghost function VersionAfter(h: Digest, x: Index, step: Step): string {
    match step
    case SecondWrite(_) => x.version
    case Drop(id) => if id in x.positions then "" else x.version
    case Ask => if x.version == "" then Version(h, EmbeddingsOf(x.positions)) else x.version
    case _ => ""
  }

  ghost function Stepped(h: Digest, x: Index, step: Step): Index {
    Index(Apply(x.positions, step), VersionAfter(h, x, step))
  }

  /** The cached version is empty or that of the current positions. */
  ghost predicate Coherent(h: Digest, x: Index) {
    x.version == "" || x.version == Version(h, EmbeddingsOf(x.positions))
  }

  // ----- the table -----

  class AdvertiserTable {
    var rows: map<string, Row>

    constructor ()
      ensures rows == map[]
    {
      rows := map[];
    }

    method InsertAdvertiser(pos: Position, budget: real, fails: bool) returns (err: bool)
      modifies `rows
      ensures err <==> fails || pos.id in old(rows)
      ensures rows == if err then old(rows) else old(rows)[pos.id := Row(pos, budget)]
    {
      if fails || pos.id in rows {
        return true;
      }
      rows := rows[pos.id := Row(pos, budget)];
      return false;
    }

    method DeleteAdvertiser(id: string, fails: bool) returns (err: bool)
      modifies `rows
      ensures err <==> fails || id !in old(rows)
      ensures rows == if err then old(rows) else old(rows) - {id}
    {
      if fails || id !in rows {
        return true;
      }
      rows := rows - {id};
      return false;
    }

    /** Leaves ID, currency, budget and budget ID as they are. */
    method UpdateAdvertiser(pos: Position, fails: bool) returns (err: bool)
      modifies `rows
      ensures err <==> fails || pos.id !in old(rows)
      ensures rows == if err then old(rows) else old(rows)[pos.id := Rewritten(old(rows)[pos.id], pos)]
      ensures !err ==> RewrittenAs(old(rows)[pos.id], pos, rows[pos.id])
    {
      if fails || pos.id !in rows {
        return true;
      }
      rows := rows[pos.id := Rewritten(rows[pos.id], pos)];
      return false;
    }

    /** Appends to the position history, of which only success matters here. */
    method RecordPositionChange(id: string, fails: bool) returns (err: bool)
      ensures err == fails
    {
      return fails;
    }
  }

  /** What an update changes in a row, and what it leaves. */
  predicate RewrittenAs(row: Row, pos: Position, after: Row) {
    var p, q := row.position, after.position;
    && after.budget == row.budget && q.id == p.id && q.currency == p.currency && q.budgetId == p.budgetId
    && q.name == pos.name && q.intent == pos.intent && q.embedding == pos.embedding && q.sigma == pos.sigma
    && q.bidPrice == pos.bidPrice && q.url == pos.url
  }

  function Rewritten(row: Row, pos: Position): Row {
    row.(position := pos.(id := row.position.id, currency := row.position.currency, budgetId := row.position.budgetId))
  }

  // ----- a keyword group -----

  datatype Campaign = Campaign(name: string, sigma: real, bidPrice: real, budget: real, currency: string, url: string)

  function EmbeddingOf(embed: string -> Option<seq<real>>, text: string): seq<real> {
    if embed(text).Some? then embed(text).value else []
  }

  function GroupName(c: Campaign, keyword: string): string {
    c.name + " [" + keyword + "]"
  }

  /** The position of the j-th keyword, when base IDs were issued before. */
  function Member(ids: Ids, c: Campaign, ks: seq<string>, embed: string -> Option<seq<real>>, base: nat, j: nat): Position
    requires j < |ks|
  {
    Position(ids.of(base + 1 + j), GroupName(c, ks[j]), ks[j], EmbeddingOf(embed, ks[j]), c.sigma, c.bidPrice, c.currency, c.url,
             if j == 0 then "" else ids.of(base + 1))
  }

  function WithMembers(ids: Ids, positions: map<string, Position>, c: Campaign, ks: seq<string>, embed: string -> Option<seq<real>>, base: nat, k: nat)
      : map<string, Position>
    requires k <= |ks|
  {
    if k == 0 then positions
    else WithMembers(ids, positions, c, ks, embed, base, k - 1)[Member(ids, c, ks, embed, base, k - 1).id := Member(ids, c, ks, embed, base, k - 1)]
  }

  /** The head's row carries the budget. */
  function WithRows(ids: Ids, rows: map<string, Row>, c: Campaign, ks: seq<string>, embed: string -> Option<seq<real>>, base: nat, k: nat): map<string, Row>
    requires k <= |ks|
  {
    if k == 0 then rows
    else WithRows(ids, rows, c, ks, embed, base, k - 1)[Member(ids, c, ks, embed, base, k - 1).id := MemberRow(ids, c, ks, embed, base, k - 1)]
  }

  /** The first k IDs issued after base. */
  function NewIds(ids: Ids, base: nat, k: nat): set<string> {
    if k == 0 then {} else NewIds(ids, base, k - 1) + {ids.of(base + 1 + (k - 1))}
  }

  lemma {:induction false} NewIdsFresh(ids: Ids, base: nat, k: nat, id: string)
    requires IssuedUpTo(ids, id, base)
    ensures id !in NewIds(ids, base, k)
  {
    if k > 0 {
      NewIdsFresh(ids, base, k - 1, id);
      IdReads(ids, base + 1 + (k - 1));
    }
  }

  /** all is m with exactly the added keys new or overwritten. */
  ghost predicate Extends<T(!new)>(all: map<string, T>, m: map<string, T>, added: set<string>) {
    && (forall id :: id in all <==> id in m || id in added)
    && (forall id :: id in m && id !in added ==> all[id] == m[id])
  }

  lemma ExtendsOne<T(!new)>(all: map<string, T>, m: map<string, T>, added: set<string>, id: string, x: T)
    requires Extends(all, m, added)
    ensures Extends(all[id := x], m, added + {id})
  {
  }

  lemma {:induction false} MembersAreNew(ids: Ids, positions: map<string, Position>, c: Campaign, ks: seq<string>, embed: string -> Option<seq<real>>, base: nat, k: nat)
    requires k <= |ks|
    ensures Extends(WithMembers(ids, positions, c, ks, embed, base, k), positions, NewIds(ids, base, k))
  {
    if k > 0 {
      MembersAreNew(ids, positions, c, ks, embed, base, k - 1);
      var pos := Member(ids, c, ks, embed, base, k - 1);
      ExtendsOne(WithMembers(ids, positions, c, ks, embed, base, k - 1), positions, NewIds(ids, base, k - 1), pos.id, pos);
    }
  }

  lemma {:induction false} RowsAreNew(ids: Ids, rows: map<string, Row>, c: Campaign, ks: seq<string>, embed: string -> Option<seq<real>>, base: nat, k: nat)
    requires k <= |ks|
    ensures Extends(WithRows(ids, rows, c, ks, embed, base, k), rows, NewIds(ids, base, k))
  {
    if k > 0 {
      RowsAreNew(ids, rows, c, ks, embed, base, k - 1);
      var pos := Member(ids, c, ks, embed, base, k - 1);
      ExtendsOne(WithRows(ids, rows, c, ks, embed, base, k - 1), rows, NewIds(ids, base, k - 1), pos.id, MemberRow(ids, c, ks, embed, base, k - 1));
    }
  }

  lemma FiledLater(ids: Ids, positions: map<string, Position>, n: nat, later: nat)
    requires Filed(ids, positions, n) && n <= later
    ensures Filed(ids, positions, later)
  {
  }

  lemma NextRowIsFree(ids: Ids, rows: map<string, Row>, base: nat, j: nat)
    requires RowsFiled(ids, rows, base + j)
    ensures ids.of(base + 1 + j) !in rows
  {
    assert base + 1 + j == base + j + 1;
    NextIsFresh(ids, base + j);
  }

  lemma AddThenDrop<T>(m: map<string, T>, id: string, x: T)
    requires id !in m
    ensures m[id := x] - {id} == m
  {
  }

  lemma RowsFiledLater(ids: Ids, rows: map<string, Row>, n: nat, later: nat)
    requires RowsFiled(ids, rows, n) && n <= later
    ensures RowsFiled(ids, rows, later)
  {
  }

  lemma DropOneMore<T>(m: map<string, T>, gone: set<string>, id: string)
    ensures (m - gone) - {id} == m - (gone + {id})
  {
  }

  /** Taking the members out again gives the positions from before. */
  lemma MembersUndone(ids: Ids, positions: map<string, Position>, c: Campaign, ks: seq<string>, embed: string -> Option<seq<real>>, base: nat, k: nat)
    requires k <= |ks| && Filed(ids, positions, base)
    ensures WithMembers(ids, positions, c, ks, embed, base, k) - NewIds(ids, base, k) == positions
  {
    MembersAreNew(ids, positions, c, ks, embed, base, k);
    forall id | id in positions ensures id !in NewIds(ids, base, k) {
      NewIdsFresh(ids, base, k, id);
    }
  }

  /** Of the first k members' IDs, those whose compensating delete works. */
  function Deleted(ids: Ids, base: nat, k: nat, undo: nat -> bool): set<string> {
    if k == 0 then {} else Deleted(ids, base, k - 1, undo) + if undo(k - 1) then {} else {ids.of(base + 1 + (k - 1))}
  }

  function MemberRow(ids: Ids, c: Campaign, ks: seq<string>, embed: string -> Option<seq<real>>, base: nat, j: nat): Row
    requires j < |ks|
  {
    Row(Member(ids, c, ks, embed, base, j), if j == 0 then c.budget else 0.0)
  }

  /** What a rollback of the first k members leaves: the rows whose compensating delete fails. */
  function WithStrays(ids: Ids, rows: map<string, Row>, c: Campaign, ks: seq<string>, embed: string -> Option<seq<real>>, base: nat, k: nat, undo: nat -> bool)
      : map<string, Row>
    requires k <= |ks|
  {
    if k == 0 then rows
    else
      var rest := WithStrays(ids, rows, c, ks, embed, base, k - 1, undo);
      if undo(k - 1) then rest[Member(ids, c, ks, embed, base, k - 1).id := MemberRow(ids, c, ks, embed, base, k - 1)] else rest
  }

  lemma {:induction false} DeletedAreNew(ids: Ids, base: nat, k: nat, undo: nat -> bool, j: nat)
    requires k <= j
    ensures ids.of(base + 1 + j) !in Deleted(ids, base, k, undo)
  {
    if k > 0 {
      DeletedAreNew(ids, base, k - 1, undo, j);
      IdsDiffer(ids, base + 1 + j, base + 1 + (k - 1));
    }
  }

  lemma {:induction false} NextMemberRowIsFree(ids: Ids, rows: map<string, Row>, c: Campaign, ks: seq<string>, embed: string -> Option<seq<real>>, base: nat, k: nat, j: nat)
    requires k <= j && k <= |ks| && RowsFiled(ids, rows, base)
    ensures ids.of(base + 1 + j) !in WithRows(ids, rows, c, ks, embed, base, k)
  {
    if k > 0 {
      NextMemberRowIsFree(ids, rows, c, ks, embed, base, k - 1, j);
      IdsDiffer(ids, base + 1 + j, base + 1 + (k - 1));
    } else {
      IdReads(ids, base + 1 + j);
    }
  }

  /** Adding an entry and taking others out, in either order. */
  lemma AddCommutes<T>(m: map<string, T>, gone: set<string>, id: string, x: T)
    requires id !in gone
    ensures m[id := x] - gone == (m - gone)[id := x]
  {
  }

  /** Deleting the members' rows leaves the strays. */
  lemma {:induction false} RowsUndone(ids: Ids, rows: map<string, Row>, c: Campaign, ks: seq<string>, embed: string -> Option<seq<real>>, base: nat, k: nat, undo: nat -> bool)
    requires k <= |ks| && RowsFiled(ids, rows, base)
    ensures WithRows(ids, rows, c, ks, embed, base, k) - Deleted(ids, base, k, undo) == WithStrays(ids, rows, c, ks, embed, base, k, undo)
  {
    if k > 0 {
      var j: nat := k - 1;
      RowsUndone(ids, rows, c, ks, embed, base, j, undo);
      DeletedAreNew(ids, base, j, undo, j);
      NextMemberRowIsFree(ids, rows, c, ks, embed, base, j, j);
      RowsUndoneStep(ids, rows, c, ks, embed, base, j, undo);
      assert j + 1 == k;
    }
  }

  lemma RowsUndoneStep(ids: Ids, rows: map<string, Row>, c: Campaign, ks: seq<string>, embed: string -> Option<seq<real>>, base: nat, k: nat, undo: nat -> bool)
    requires k < |ks|
    requires ids.of(base + 1 + k) !in Deleted(ids, base, k, undo) && ids.of(base + 1 + k) !in WithRows(ids, rows, c, ks, embed, base, k)
    requires WithRows(ids, rows, c, ks, embed, base, k) - Deleted(ids, base, k, undo) == WithStrays(ids, rows, c, ks, embed, base, k, undo)
    ensures WithRows(ids, rows, c, ks, embed, base, k + 1) - Deleted(ids, base, k + 1, undo) == WithStrays(ids, rows, c, ks, embed, base, k + 1, undo)
  {
    OneRowUndone(WithRows(ids, rows, c, ks, embed, base, k), Deleted(ids, base, k, undo), ids.of(base + 1 + k),
                 MemberRow(ids, c, ks, embed, base, k), undo(k));
  }

  lemma OneRowUndone<T>(m: map<string, T>, gone: set<string>, id: string, x: T, stays: bool)
    requires id !in gone && id !in m
    ensures m[id := x] - (gone + if stays then {} else {id}) == if stays then (m - gone)[id := x] else m - gone
  {
  }

  predicate NoneFails(undo: nat -> bool, k: nat) {
    forall j: nat :: j < k ==> !undo(j)
  }

  /** The rows are what they were exactly if every compensating delete works. */
  lemma {:induction false} NoStraysIffUndone(ids: Ids, rows: map<string, Row>, c: Campaign, ks: seq<string>, embed: string -> Option<seq<real>>, base: nat, k: nat, undo: nat -> bool)
    requires k <= |ks| && RowsFiled(ids, rows, base)
    ensures forall id :: id in rows ==> id in WithStrays(ids, rows, c, ks, embed, base, k, undo)
    ensures WithStrays(ids, rows, c, ks, embed, base, k, undo) == rows <==> NoneFails(undo, k)
  {
    if k > 0 {
      NoStraysIffUndone(ids, rows, c, ks, embed, base, k - 1, undo);
      IdReads(ids, base + 1 + (k - 1));
      assert ids.of(base + 1 + (k - 1)) !in rows;
    }
  }

  lemma {:induction false} NewIdIndex(ids: Ids, base: nat, k: nat, id: string) returns (j: nat)
    requires id in NewIds(ids, base, k)
    ensures j < k && id == ids.of(base + 1 + j)
  {
    if id in NewIds(ids, base, k - 1) {
      j := NewIdIndex(ids, base, k - 1, id);
    } else {
      j := k - 1;
    }
  }

  /** The j-th new ID holds the j-th member. */
  lemma {:induction false} MemberAt(ids: Ids, positions: map<string, Position>, c: Campaign, ks: seq<string>, embed: string -> Option<seq<real>>, base: nat, k: nat, j: nat)
    requires j < k <= |ks|
    ensures var all := WithMembers(ids, positions, c, ks, embed, base, k);
            ids.of(base + 1 + j) in all && all[ids.of(base + 1 + j)] == Member(ids, c, ks, embed, base, j)
  {
    if j < k - 1 {
      MemberAt(ids, positions, c, ks, embed, base, k - 1, j);
      IdsDiffer(ids, base + 1 + j, base + 1 + (k - 1));
    }
  }

  lemma IdsDiffer(ids: Ids, m: nat, n: nat)
    requires m != n
    ensures ids.of(m) != ids.of(n)
  {
    IdReads(ids, m);
    IdReads(ids, n);
  }

  lemma NewMemberSound(ids: Ids, positions: map<string, Position>, c: Campaign, ks: seq<string>, embed: string -> Option<seq<real>>, base: nat, k: nat, id: string)
    requires k <= |ks| && id in NewIds(ids, base, k) && id in WithMembers(ids, positions, c, ks, embed, base, k)
    ensures var all := WithMembers(ids, positions, c, ks, embed, base, k);
            all[id].id == id && IssuedUpTo(ids, id, base + k) && HasHead(all, id)
  {
    var j := NewIdIndex(ids, base, k, id);
    MemberAt(ids, positions, c, ks, embed, base, k, j);
    MemberAt(ids, positions, c, ks, embed, base, k, 0);
    IdReads(ids, base + 1 + j);
  }

  lemma OldMemberSound(ids: Ids, positions: map<string, Position>, c: Campaign, ks: seq<string>, embed: string -> Option<seq<real>>, base: nat, k: nat, id: string)
    requires k <= |ks| && Filed(ids, positions, base) && Headed(positions) && id in positions
    ensures var all := WithMembers(ids, positions, c, ks, embed, base, k);
            id in all && all[id].id == id && IssuedUpTo(ids, id, base + k) && HasHead(all, id)
  {
    MembersAreNew(ids, positions, c, ks, embed, base, k);
    NewIdsFresh(ids, base, k, id);
    assert HasHead(positions, id);
    if positions[id].budgetId != "" {
      NewIdsFresh(ids, base, k, positions[id].budgetId);
    }
  }

  /** A group keeps every position filed and headed. */
  lemma MembersKeepSound(ids: Ids, positions: map<string, Position>, c: Campaign, ks: seq<string>, embed: string -> Option<seq<real>>, base: nat, k: nat)
    requires k <= |ks| && Filed(ids, positions, base) && Headed(positions)
    ensures Filed(ids, WithMembers(ids, positions, c, ks, embed, base, k), base + k) && Headed(WithMembers(ids, positions, c, ks, embed, base, k))
  {
    var all := WithMembers(ids, positions, c, ks, embed, base, k);
    forall id | id in all ensures all[id].id == id && IssuedUpTo(ids, id, base + k) && HasHead(all, id) {
      MembersAreNew(ids, positions, c, ks, embed, base, k);
      if id in positions {
        OldMemberSound(ids, positions, c, ks, embed, base, k, id);
      } else {
        NewMemberSound(ids, positions, c, ks, embed, base, k, id);
      }
    }
  }

  lemma AddKeepsSound(ids: Ids, positions: map<string, Position>, pos: Position, n: nat)
    requires Filed(ids, positions, n) && Headed(positions) && pos.id == ids.of(n + 1)
    requires pos.budgetId != "" ==> pos.budgetId in positions && positions[pos.budgetId].budgetId == ""
    ensures Filed(ids, positions[pos.id := pos], n + 1) && Headed(positions[pos.id := pos])
  {
    NextIsFresh(ids, n);
    var all := positions[pos.id := pos];
    forall id | id in all ensures all[id].id == id && IssuedUpTo(ids, id, n + 1) && HasHead(all, id) {
      if id != pos.id {
        assert HasHead(positions, id);
      }
    }
  }

  lemma {:induction false} RowsStayFiled(ids: Ids, rows: map<string, Row>, c: Campaign, ks: seq<string>, embed: string -> Option<seq<real>>, base: nat, k: nat)
    requires k <= |ks| && RowsFiled(ids, rows, base)
    ensures RowsFiled(ids, WithRows(ids, rows, c, ks, embed, base, k), base + k)
  {
    if k > 0 {
      RowsStayFiled(ids, rows, c, ks, embed, base, k - 1);
      IdReads(ids, base + 1 + (k - 1));
      RowFiled(ids, WithRows(ids, rows, c, ks, embed, base, k - 1), base + (k - 1), MemberRow(ids, c, ks, embed, base, k - 1));
    }
  }

  lemma {:induction false} StraysStayFiled(ids: Ids, rows: map<string, Row>, c: Campaign, ks: seq<string>, embed: string -> Option<seq<real>>, base: nat, k: nat, undo: nat -> bool)
    requires k <= |ks| && RowsFiled(ids, rows, base)
    ensures RowsFiled(ids, WithStrays(ids, rows, c, ks, embed, base, k, undo), base + k)
  {
    if k > 0 {
      StraysStayFiled(ids, rows, c, ks, embed, base, k - 1, undo);
      IdReads(ids, base + 1 + (k - 1));
      RowFiled(ids, WithStrays(ids, rows, c, ks, embed, base, k - 1, undo), base + (k - 1), MemberRow(ids, c, ks, embed, base, k - 1));
    }
  }

  lemma RowFiled(ids: Ids, rows: map<string, Row>, n: nat, row: Row)
    requires RowsFiled(ids, rows, n) && IssuedUpTo(ids, row.position.id, n + 1)
    ensures RowsFiled(ids, rows[row.position.id := row], n + 1) && RowsFiled(ids, rows, n + 1)
  {
  }

  function MembersOf(ids: Ids, c: Campaign, ks: seq<string>, embed: string -> Option<seq<real>>, base: nat, k: nat): seq<Position>
    requires k <= |ks|
  {
    if k == 0 then [] else MembersOf(ids, c, ks, embed, base, k - 1) + [Member(ids, c, ks, embed, base, k - 1)]
  }

  /** What a group found when it began. */
  ghost predicate Begun(ids: Ids, positions: map<string, Position>, rows: map<string, Row>, n: nat) {
    Filed(ids, positions, n) && Headed(positions) && RowsFiled(ids, rows, n)
  }

  /** The table after the j-th keyword failed, before the rollback of the others. */
  function AfterFailure(ids: Ids, rows: map<string, Row>, c: Campaign, ks: seq<string>, embed: string -> Option<seq<real>>, base: nat, j: nat, f: GroupFaults)
      : map<string, Row>
    requires j < |ks|
  {
    if Inserted(embed, ks, f, j) && f.undo(j) then rows[ids.of(base + 1 + j) := MemberRow(ids, c, ks, embed, base, j)] else rows
  }

  /** What the rollback after the j-th keyword's failure leaves in the table. */
  lemma FailureUndone(ids: Ids, rows: map<string, Row>, c: Campaign, ks: seq<string>, embed: string -> Option<seq<real>>, base: nat, j: nat, f: GroupFaults)
    requires j < |ks| && RowsFiled(ids, rows, base)
    ensures var k := if Inserted(embed, ks, f, j) then j + 1 else j;
            && AfterFailure(ids, WithRows(ids, rows, c, ks, embed, base, j), c, ks, embed, base, j, f) - Deleted(ids, base, j, f.undo) ==
               WithStrays(ids, rows, c, ks, embed, base, k, f.undo)
            && RowsFiled(ids, WithStrays(ids, rows, c, ks, embed, base, k, f.undo), base + k)
  {
    RowsUndone(ids, rows, c, ks, embed, base, j, f.undo);
    DeletedAreNew(ids, base, j, f.undo, j);
    AddCommutes(WithRows(ids, rows, c, ks, embed, base, j), Deleted(ids, base, j, f.undo), ids.of(base + 1 + j), MemberRow(ids, c, ks, embed, base, j));
    StraysStayFiled(ids, rows, c, ks, embed, base, if Inserted(embed, ks, f, j) then j + 1 else j, f.undo);
  }

  /** One failing keyword fails the group. */
  lemma {:induction false} OneFailsAll(embed: string -> Option<seq<real>>, ks: seq<string>, hasDb: bool, f: GroupFaults, j: nat, k: nat)
    requires j < k <= |ks| && !MemberOk(embed, ks, hasDb, f, j)
    ensures !MembersOk(embed, ks, hasDb, f, k)
  {
    if j < k - 1 {
      OneFailsAll(embed, ks, hasDb, f, j, k - 1);
    }
  }

  // ----- the registry -----

  /** Which inserts, history writes and compensating deletes of a group fail, by keyword. */
  datatype GroupFaults = GroupFaults(insert: nat -> bool, record: nat -> bool, undo: nat -> bool)

  predicate MemberOk(embed: string -> Option<seq<real>>, ks: seq<string>, hasDb: bool, f: GroupFaults, j: nat)
    requires j < |ks|
  {
    embed(ks[j]).Some? && (hasDb ==> !f.insert(j) && !f.record(j))
  }

  /** The j-th keyword's row is inserted, if its turn comes. */
  predicate Inserted(embed: string -> Option<seq<real>>, ks: seq<string>, f: GroupFaults, j: nat)
    requires j < |ks|
  {
    embed(ks[j]).Some? && !f.insert(j)
  }

  /** How many of the first k keywords get a row before the group succeeds or fails. */
  function Inserts(embed: string -> Option<seq<real>>, ks: seq<string>, f: GroupFaults, k: nat): (n: nat)
    requires k <= |ks|
    ensures n <= k
  {
    if k == 0 then 0
    else if !MembersOk(embed, ks, true, f, k - 1) then Inserts(embed, ks, f, k - 1)
    else if Inserted(embed, ks, f, k - 1) then k else k - 1
  }

  lemma {:induction false} InsertsStop(embed: string -> Option<seq<real>>, ks: seq<string>, f: GroupFaults, j: nat, k: nat)
    requires j < k <= |ks| && MembersOk(embed, ks, true, f, j) && !MemberOk(embed, ks, true, f, j)
    ensures Inserts(embed, ks, f, k) == j + if Inserted(embed, ks, f, j) then 1 else 0
  {
    if j < k - 1 {
      InsertsStop(embed, ks, f, j, k - 1);
      OneFailsAll(embed, ks, true, f, j, k - 1);
    }
  }

  /** The first k keywords can all be registered. */
  predicate MembersOk(embed: string -> Option<seq<real>>, ks: seq<string>, hasDb: bool, f: GroupFaults, k: nat)
    requires k <= |ks|
  {
    k == 0 || (MembersOk(embed, ks, hasDb, f, k - 1) && MemberOk(embed, ks, hasDb, f, k - 1))
  }

  // ----- what a keyword group consists of -----

  /** p is the position of the campaign's j-th keyword: at the keyword's own
      embedding, on the campaign's terms, on the budget of the first. */
  predicate MemberFor(ids: Ids, c: Campaign, ks: seq<string>, embed: string -> Option<seq<real>>, base: nat, j: nat, p: Position)
    requires j < |ks|
  {
    && p.id == ids.of(base + 1 + j) && p.name == c.name + " [" + ks[j] + "]" && p.intent == ks[j]
    && embed(ks[j]) == Some(p.embedding) && p.sigma == c.sigma && p.bidPrice == c.bidPrice && p.currency == c.currency && p.url == c.url
    && p.budgetId == if j == 0 then "" else ids.of(base + 1)
  }

  /** Its row; the first holds the budget. */
  predicate RowFor(ids: Ids, c: Campaign, ks: seq<string>, embed: string -> Option<seq<real>>, base: nat, j: nat, row: Row)
    requires j < |ks|
  {
    MemberFor(ids, c, ks, embed, base, j, row.position) && row.budget == if j == 0 then c.budget else 0.0
  }

  /** all is what there was before, and positions for each keyword. */
  ghost predicate AddsMembers(ids: Ids, c: Campaign, ks: seq<string>, embed: string -> Option<seq<real>>, base: nat,
                              before: map<string, Position>, all: map<string, Position>) {
    && Extends(all, before, NewIds(ids, base, |ks|)) && (forall id :: id in before ==> id !in NewIds(ids, base, |ks|))
    && forall j: nat :: j < |ks| ==> MemberStands(ids, c, ks, embed, base, j, all)
  }

  predicate MemberStands(ids: Ids, c: Campaign, ks: seq<string>, embed: string -> Option<seq<real>>, base: nat, j: nat, all: map<string, Position>)
    requires j < |ks|
  {
    ids.of(base + 1 + j) in all && MemberFor(ids, c, ks, embed, base, j, all[ids.of(base + 1 + j)])
  }

  ghost predicate AddsRows(ids: Ids, c: Campaign, ks: seq<string>, embed: string -> Option<seq<real>>, base: nat,
                           before: map<string, Row>, all: map<string, Row>) {
    && Extends(all, before, NewIds(ids, base, |ks|)) && (forall id :: id in before ==> id !in NewIds(ids, base, |ks|))
    && forall j: nat :: j < |ks| ==> RowStands(ids, c, ks, embed, base, j, all)
  }

  predicate RowStands(ids: Ids, c: Campaign, ks: seq<string>, embed: string -> Option<seq<real>>, base: nat, j: nat, all: map<string, Row>)
    requires j < |ks|
  {
    ids.of(base + 1 + j) in all && RowFor(ids, c, ks, embed, base, j, all[ids.of(base + 1 + j)])
  }

  /** The positions that a group is answered with. */
  predicate IsGroup(ids: Ids, c: Campaign, ks: seq<string>, embed: string -> Option<seq<real>>, base: nat, ps: seq<Position>) {
    |ps| == |ks| && forall j: nat :: j < |ks| ==> MemberFor(ids, c, ks, embed, base, j, ps[j])
  }

  /** Every keyword can be embedded, and inserted and recorded if there is a table. */
  predicate AllWork(embed: string -> Option<seq<real>>, ks: seq<string>, hasDb: bool, f: GroupFaults) {
    forall j: nat :: j < |ks| ==> embed(ks[j]).Some? && !(hasDb && (f.insert(j) || f.record(j)))
  }

  lemma {:induction false} MembersOkIff(embed: string -> Option<seq<real>>, ks: seq<string>, hasDb: bool, f: GroupFaults, k: nat)
    requires k <= |ks|
    ensures MembersOk(embed, ks, hasDb, f, k) <==> AllWork(embed, ks[..k], hasDb, f)
  {
    if k > 0 {
      var n: nat := k - 1;
      MembersOkIff(embed, ks, hasDb, f, n);
      assert ks[..k][n] == ks[n] && forall j: nat :: j < n ==> ks[..k][j] == ks[..n][j];
      assert AllWork(embed, ks[..k], hasDb, f) ==> AllWork(embed, ks[..n], hasDb, f);
    }
  }

  lemma MemberIsFor(ids: Ids, c: Campaign, ks: seq<string>, embed: string -> Option<seq<real>>, base: nat, j: nat)
    requires j < |ks| && embed(ks[j]).Some?
    ensures MemberFor(ids, c, ks, embed, base, j, Member(ids, c, ks, embed, base, j))
    ensures RowFor(ids, c, ks, embed, base, j, MemberRow(ids, c, ks, embed, base, j))
  {
  }

  lemma {:induction false} RowAt(ids: Ids, rows: map<string, Row>, c: Campaign, ks: seq<string>, embed: string -> Option<seq<real>>, base: nat, k: nat, j: nat)
    requires j < k <= |ks|
    ensures var all := WithRows(ids, rows, c, ks, embed, base, k);
            ids.of(base + 1 + j) in all && all[ids.of(base + 1 + j)] == MemberRow(ids, c, ks, embed, base, j)
  {
    if j < k - 1 {
      RowAt(ids, rows, c, ks, embed, base, k - 1, j);
      IdsDiffer(ids, base + 1 + j, base + 1 + (k - 1));
    }
  }

  /** A group that works leaves exactly its members beside what there was. */
  lemma WithMembersAdds(ids: Ids, positions: map<string, Position>, c: Campaign, ks: seq<string>, embed: string -> Option<seq<real>>, base: nat)
    requires Filed(ids, positions, base) && forall j: nat :: j < |ks| ==> embed(ks[j]).Some?
    ensures AddsMembers(ids, c, ks, embed, base, positions, WithMembers(ids, positions, c, ks, embed, base, |ks|))
  {
    var all := WithMembers(ids, positions, c, ks, embed, base, |ks|);
    MembersAreNew(ids, positions, c, ks, embed, base, |ks|);
    forall id | id in positions ensures id !in NewIds(ids, base, |ks|) {
      NewIdsFresh(ids, base, |ks|, id);
    }
    forall j: nat | j < |ks| ensures MemberStands(ids, c, ks, embed, base, j, all) {
      MemberAt(ids, positions, c, ks, embed, base, |ks|, j);
      MemberIsFor(ids, c, ks, embed, base, j);
    }
  }

  /** ... and exactly their rows. */
  lemma WithRowsAdds(ids: Ids, rows: map<string, Row>, c: Campaign, ks: seq<string>, embed: string -> Option<seq<real>>, base: nat)
    requires RowsFiled(ids, rows, base) && forall j: nat :: j < |ks| ==> embed(ks[j]).Some?
    ensures AddsRows(ids, c, ks, embed, base, rows, WithRows(ids, rows, c, ks, embed, base, |ks|))
  {
    var all := WithRows(ids, rows, c, ks, embed, base, |ks|);
    RowsAreNew(ids, rows, c, ks, embed, base, |ks|);
    forall id | id in rows ensures id !in NewIds(ids, base, |ks|) {
      NewIdsFresh(ids, base, |ks|, id);
    }
    forall j: nat | j < |ks| ensures RowStands(ids, c, ks, embed, base, j, all) {
      RowAt(ids, rows, c, ks, embed, base, |ks|, j);
      MemberIsFor(ids, c, ks, embed, base, j);
    }
  }

  lemma {:induction false} MembersOfAt(ids: Ids, c: Campaign, ks: seq<string>, embed: string -> Option<seq<real>>, base: nat, k: nat, j: nat)
    requires j < k <= |ks|
    ensures |MembersOf(ids, c, ks, embed, base, k)| == k && MembersOf(ids, c, ks, embed, base, k)[j] == Member(ids, c, ks, embed, base, j)
  {
    if j < k - 1 {
      MembersOfAt(ids, c, ks, embed, base, k - 1, j);
    } else if k > 1 {
      MembersOfAt(ids, c, ks, embed, base, k - 1, 0);
    }
  }

  lemma MembersOfIsGroup(ids: Ids, c: Campaign, ks: seq<string>, embed: string -> Option<seq<real>>, base: nat)
    requires forall j: nat :: j < |ks| ==> embed(ks[j]).Some?
    ensures IsGroup(ids, c, ks, embed, base, MembersOf(ids, c, ks, embed, base, |ks|))
  {
    var ps := MembersOf(ids, c, ks, embed, base, |ks|);
    if ks != [] {
      MembersOfAt(ids, c, ks, embed, base, |ks|, 0);
    }
    forall j: nat | j < |ks| ensures MemberFor(ids, c, ks, embed, base, j, ps[j]) {
      MembersOfAt(ids, c, ks, embed, base, |ks|, j);
      MemberIsFor(ids, c, ks, embed, base, j);
    }
  }

  /** Each row that a failed group leaves is that of a keyword whose
      compensating delete failed; each other keyword has none. */
  lemma {:induction false} StraysAre(ids: Ids, rows: map<string, Row>, c: Campaign, ks: seq<string>, embed: string -> Option<seq<real>>, base: nat, k: nat,
                                     undo: nat -> bool, j: nat)
    requires k <= |ks| && j < |ks| && RowsFiled(ids, rows, base) && (j < k ==> embed(ks[j]).Some?)
    ensures var left := WithStrays(ids, rows, c, ks, embed, base, k, undo);
            if j < k && undo(j) then RowStands(ids, c, ks, embed, base, j, left) else ids.of(base + 1 + j) !in left
  {
    if k > 0 {
      StraysAre(ids, rows, c, ks, embed, base, k - 1, undo, j);
      if j == k - 1 {
        MemberIsFor(ids, c, ks, embed, base, j);
      } else {
        IdsDiffer(ids, base + 1 + j, base + 1 + (k - 1));
      }
    } else {
      IdReads(ids, base + 1 + j);
    }
  }

  class PositionRegistry {
    var positions: map<string, Position>
    var nextId: nat
    var embeddingsVersion: string
    var db: AdvertiserTable?
    const ids: Ids
    const embed: string -> Option<seq<real>>
    const digest: Digest

    constructor (embed: string -> Option<seq<real>>, digest: Digest)
      ensures Valid() && positions == map[] && nextId == 0 && db == null
      ensures ids == AdvIds() && this.embed == embed && this.digest == digest
    {
      positions, nextId, embeddingsVersion, db := map[], 0, "", null;
      this.ids, this.embed, this.digest := AdvIds(), embed, digest;
    }

    ghost function Held(): Index
      reads this
    {
      Index(positions, embeddingsVersion)
    }

    ghost predicate CacheCoherent()
      reads this
    {
      Coherent(digest, Held())
    }

    ghost predicate Valid()
      reads this, db
    {
      && Filed(ids, positions, nextId) && Headed(positions) && CacheCoherent()
      && (db != null ==> RowsFiled(ids, db.rows, nextId))
    }

    /** The cached version, whatever it stands for, or else the current one. */
    method EmbeddingsVersion(iteration: seq<string>) returns (version: string)
      requires Distinct(iteration) && forall id :: id in iteration <==> id in positions
      modifies `embeddingsVersion
      ensures Held() == Stepped(digest, old(Held()), Ask) && version == embeddingsVersion
      ensures old(CacheCoherent()) ==> CacheCoherent() && version == Version(digest, EmbeddingsOf(positions))
    {
      if embeddingsVersion != "" {
        return embeddingsVersion;
      }
      embeddingsVersion := ComputeVersion(digest, positions, iteration);
      return embeddingsVersion;
    }

    /** IDs are issued only once the text is embedded. In a valid registry a new
        ID replaces nothing. */
    method Register(name: string, intent: string, sigma: real, bidPrice: real, currency: string, url: string)
        returns (pos: Option<Position>)
      modifies `positions, `nextId, `embeddingsVersion
      ensures pos.Some? <==> embed(intent).Some?
      ensures pos.None? ==> positions == old(positions) && nextId == old(nextId) && embeddingsVersion == old(embeddingsVersion)
      ensures pos.Some? ==>
                && pos.value == Position(ids.of(nextId), name, intent, EmbeddingOf(embed, intent), sigma, bidPrice, currency, url, "")
                && nextId == old(nextId) + 1 && positions == old(positions)[ids.of(nextId) := pos.value] && embeddingsVersion == ""
                && Held() == Stepped(digest, old(Held()), Put(pos.value))
      ensures old(Valid()) ==> Valid() && (pos.Some? ==> ids.of(nextId) !in old(positions))
    {
      var embedding := embed(intent);
      if embedding.None? {
        return None;
      }
      ghost var before := positions;
      nextId := nextId + 1;
      var id := ids.of(nextId);
      var p := Position(id, name, intent, embedding.value, sigma, bidPrice, currency, url, "");
      NextIsFresh(ids, nextId - 1);
      if old(Valid()) {
        AddKeepsSound(ids, positions, p, nextId - 1);
      }
      positions := positions[id := p];
      embeddingsVersion := "";
      return Some(p);
    }

    /** A failed insert is reported, but the position stays in memory. */
    method RegisterWithBudget(c: Campaign, intent: string, insertFails: bool, historyFails: bool)
        returns (pos: Option<Position>)
      requires Valid()
      modifies this`positions, this`nextId, this`embeddingsVersion, db
      ensures Valid()
      ensures pos.Some? <==> embed(intent).Some? && (db != null ==> !insertFails)
      ensures embed(intent).Some? ==>
                var p := Position(ids.of(old(nextId) + 1), c.name, intent, EmbeddingOf(embed, intent), c.sigma, c.bidPrice, c.currency, c.url, "");
                && positions == old(positions)[p.id := p] && nextId == old(nextId) + 1
                && (pos.Some? ==> pos.value == p)
                && (db != null ==> db.rows == if insertFails then old(db.rows) else old(db.rows)[p.id := Row(p, c.budget)])
      ensures embed(intent).None? ==> positions == old(positions) && nextId == old(nextId) && (db != null ==> db.rows == old(db.rows))
    {
      ghost var rowsBefore: map<string, Row> := if db != null then db.rows else map[];
      assert RowsFiled(ids, rowsBefore, nextId);
      pos := Register(c.name, intent, c.sigma, c.bidPrice, c.currency, c.url);
      if pos.None? {
        return;
      }
      if db != null {
        var err := SaveNew(pos.value, c.budget, nextId - 1, insertFails, historyFails);
        if err {
          return None;
        }
      }
    }

    method SaveNew(p: Position, budget: real, ghost n: nat, insertFails: bool, historyFails: bool) returns (err: bool)
      requires db != null && RowsFiled(ids, db.rows, n) && p.id == ids.of(n + 1)
      modifies db
      ensures RowsFiled(ids, db.rows, n + 1) && err == insertFails
      ensures db.rows == if insertFails then old(db.rows) else old(db.rows)[p.id := Row(p, budget)]
    {
      NextIsFresh(ids, n);
      RowFiled(ids, db.rows, n, Row(p, budget));
      err := db.InsertAdvertiser(p, budget, insertFails);
      if !err {
        var _ := db.RecordPositionChange(p.id, historyFails);
      }
    }

    /** The member's position in memory: registered, then pointed at the head. */
    method RegisterMember(c: Campaign, ks: seq<string>, base: nat, j: nat) returns (pos: Option<Position>)
      requires Valid() && j < |ks| && nextId == base + j
      requires j > 0 ==> ids.of(base + 1) in positions && positions[ids.of(base + 1)].budgetId == ""
      modifies `positions, `nextId, `embeddingsVersion
      ensures Valid() && (pos.Some? <==> embed(ks[j]).Some?)
      ensures pos.None? ==> positions == old(positions) && nextId == old(nextId)
      ensures pos.Some? ==>
                && pos.value == Member(ids, c, ks, embed, base, j) && nextId == base + j + 1
                && positions == old(positions)[pos.value.id := pos.value] && pos.value.id !in old(positions)
    {
      ghost var before := positions;
      pos := Register(GroupName(c, ks[j]), ks[j], c.sigma, c.bidPrice, c.currency, c.url);
      if pos.Some? {
        assert nextId == base + 1 + j && pos.value.id == ids.of(base + 1 + j);
        if j > 0 {
          var p := pos.value.(budgetId := ids.of(base + 1));
          assert p == Member(ids, c, ks, embed, base, j);
          PointAtHead(p, base + j, before);
          pos := Some(p);
        }
      }
    }

    method PointAtHead(p: Position, n: nat, ghost before: map<string, Position>)
      requires Filed(ids, before, n) && Headed(before) && p.id == ids.of(n + 1)
      requires p.budgetId in before && before[p.budgetId].budgetId == ""
      requires p.id in positions && positions == before[p.id := positions[p.id]]
      modifies `positions
      ensures positions == before[p.id := p] && Filed(ids, positions, n + 1) && Headed(positions)
      ensures Held() == Stepped(digest, old(Held()), SecondWrite(p))
    {
      positions := positions[p.id := p];
      assert positions == before[p.id := p];
      AddKeepsSound(ids, before, p, n);
    }

    /** The member's row; an unrecorded one is deleted again, if that works. */
    method PersistMember(p: Position, budget: real, insertFails: bool, recordFails: bool, undoFails: bool) returns (err: bool)
      requires db != null && p.id !in db.rows
      modifies db
      ensures err <==> insertFails || recordFails
      ensures db.rows == if !insertFails && (!recordFails || undoFails) then old(db.rows)[p.id := Row(p, budget)] else old(db.rows)
    {
      err := db.InsertAdvertiser(p, budget, insertFails);
      if err {
        return;
      }
      err := db.RecordPositionChange(p.id, recordFails);
      if err {
        AddThenDrop(old(db.rows), p.id, Row(p, budget));
        var _ := db.DeleteAdvertiser(p.id, undoFails);
      }
    }

    /** Registers one keyword; a failure takes it out again. */
    method AddMember(c: Campaign, ks: seq<string>, base: nat, j: nat, f: GroupFaults) returns (pos: Option<Position>)
      requires Valid() && j < |ks| && nextId == base + j
      requires j > 0 ==> ids.of(base + 1) in positions && positions[ids.of(base + 1)].budgetId == ""
      modifies this`positions, this`nextId, this`embeddingsVersion, db
      ensures CacheCoherent() && nextId >= old(nextId)
      ensures pos.Some? <==> MemberOk(embed, ks, db != null, f, j)
      ensures pos.None? ==> positions == old(positions)
      ensures pos.Some? ==>
                && pos.value == Member(ids, c, ks, embed, base, j) && nextId == base + j + 1
                && positions == old(positions)[pos.value.id := pos.value]
      ensures db != null ==>
                var row := MemberRow(ids, c, ks, embed, base, j);
                && (Inserted(embed, ks, f, j) ==> nextId == base + j + 1)
                && db.rows == if Inserted(embed, ks, f, j) && (pos.Some? || f.undo(j)) then old(db.rows)[row.position.id := row] else old(db.rows)
    {
      if db != null {
        NextRowIsFree(ids, db.rows, base, j);
      }
      pos := RegisterMember(c, ks, base, j);
      if pos.None? || db == null {
        return;
      }
      var err := PersistMember(pos.value, if j == 0 then c.budget else 0.0, f.insert(j), f.record(j), f.undo(j));
      if err {
        AddThenDrop(old(positions), pos.value.id, pos.value);
        Withdraw(pos.value.id);
        return None;
      }
    }

    method Withdraw(id: string)
      modifies `positions, `embeddingsVersion
      ensures positions == old(positions) - {id} && embeddingsVersion == ""
      ensures Held() == Stepped(digest, old(Held()), Remove(id))
    {
      positions := positions - {id};
      embeddingsVersion := "";
    }

    /** Takes the first k members out, head first, in memory and in the table. */
    method Rollback(base: nat, k: nat, undo: nat -> bool)
      requires CacheCoherent()
      modifies this`positions, this`embeddingsVersion, db
      ensures CacheCoherent()
      ensures positions == old(positions) - NewIds(ids, base, k)
      ensures db != null ==> db.rows == old(db.rows) - Deleted(ids, base, k, undo)
    {
      for j := 0 to k
        invariant CacheCoherent()
        invariant positions == old(positions) - NewIds(ids, base, j)
        invariant db != null ==> db.rows == old(db.rows) - Deleted(ids, base, j, undo)
      {
        var id := ids.of(base + 1 + j);
        assert NewIds(ids, base, j + 1) == NewIds(ids, base, j) + {id};
        DropOneMore(old(positions), NewIds(ids, base, j), id);
        Withdraw(id);
        if db != null {
          DropOneMore(old(db.rows), Deleted(ids, base, j, undo), id);
          var _ := db.DeleteAdvertiser(id, undo(j));
        }
      }
    }

    /** Rolls the members back when the j-th has failed. */
    method UndoGroup(c: Campaign, ks: seq<string>, base: nat, j: nat, f: GroupFaults,
                     ghost before: map<string, Position>, ghost rowsBefore: map<string, Row>)
      requires j < |ks| && Begun(ids, before, rowsBefore, base) && Failed(c, ks, base, j, f, before, rowsBefore)
      modifies this`positions, this`embeddingsVersion, db
      ensures RolledBack(c, ks, base, if Inserted(embed, ks, f, j) then j + 1 else j, f, before, rowsBefore)
    {
      Rollback(base, j, f.undo);
      MembersUndone(ids, before, c, ks, embed, base, j);
      FailureUndone(ids, rowsBefore, c, ks, embed, base, j, f);
      FiledLater(ids, before, base, nextId);
      if db != null {
        RowsFiledLater(ids, db.rows, base + if Inserted(embed, ks, f, j) then j + 1 else j, nextId);
      }
    }

    /** The first k members stand, on top of what was there before. */
    ghost predicate Progress(c: Campaign, ks: seq<string>, base: nat, k: nat, before: map<string, Position>, rowsBefore: map<string, Row>)
      requires k <= |ks|
      reads this, db
    {
      && CacheCoherent() && nextId == base + k
      && positions == WithMembers(ids, before, c, ks, embed, base, k)
      && (db != null ==> db.rows == WithRows(ids, rowsBefore, c, ks, embed, base, k))
    }

    lemma ProgressIsValid(c: Campaign, ks: seq<string>, base: nat, k: nat, before: map<string, Position>, rowsBefore: map<string, Row>)
      requires k <= |ks| && Begun(ids, before, rowsBefore, base) && Progress(c, ks, base, k, before, rowsBefore)
      ensures Valid()
    {
      MembersKeepSound(ids, before, c, ks, embed, base, k);
      RowsStayFiled(ids, rowsBefore, c, ks, embed, base, k);
    }

    /** The j-th member has failed, and the earlier ones still stand. */
    ghost predicate Failed(c: Campaign, ks: seq<string>, base: nat, j: nat, f: GroupFaults, before: map<string, Position>, rowsBefore: map<string, Row>)
      requires j < |ks|
      reads this, db
    {
      && CacheCoherent() && nextId >= base + (if db != null && Inserted(embed, ks, f, j) then j + 1 else j)
      && positions == WithMembers(ids, before, c, ks, embed, base, j)
      && (db != null ==> db.rows == AfterFailure(ids, WithRows(ids, rowsBefore, c, ks, embed, base, j), c, ks, embed, base, j, f))
    }

    method TryMember(c: Campaign, ks: seq<string>, base: nat, j: nat, f: GroupFaults,
                     ghost before: map<string, Position>, ghost rowsBefore: map<string, Row>) returns (pos: Option<Position>)
      requires j < |ks| && Begun(ids, before, rowsBefore, base) && Progress(c, ks, base, j, before, rowsBefore)
      modifies this`positions, this`nextId, this`embeddingsVersion, db
      ensures pos.Some? <==> MemberOk(embed, ks, db != null, f, j)
      ensures pos.Some? ==> pos.value == Member(ids, c, ks, embed, base, j) && Progress(c, ks, base, j + 1, before, rowsBefore)
      ensures pos.None? ==> Failed(c, ks, base, j, f, before, rowsBefore)
    {
      ReadyForMember(c, ks, base, j, before, rowsBefore);
      pos := AddMember(c, ks, base, j, f);
      if pos.Some? {
        assert Progress(c, ks, base, j + 1, before, rowsBefore);
      } else {
        assert Failed(c, ks, base, j, f, before, rowsBefore);
      }
    }

    /** Adds the next member, or takes the whole group back. */
    method NextMember(c: Campaign, ks: seq<string>, base: nat, j: nat, f: GroupFaults,
                      ghost before: map<string, Position>, ghost rowsBefore: map<string, Row>) returns (pos: Option<Position>)
      requires j < |ks| && Begun(ids, before, rowsBefore, base) && Progress(c, ks, base, j, before, rowsBefore)
      modifies this`positions, this`nextId, this`embeddingsVersion, db
      ensures pos.Some? <==> MemberOk(embed, ks, db != null, f, j)
      ensures pos.Some? ==> pos.value == Member(ids, c, ks, embed, base, j) && Progress(c, ks, base, j + 1, before, rowsBefore)
      ensures pos.None? ==> RolledBack(c, ks, base, if Inserted(embed, ks, f, j) then j + 1 else j, f, before, rowsBefore)
    {
      pos := TryMember(c, ks, base, j, f, before, rowsBefore);
      if pos.None? {
        UndoGroup(c, ks, base, j, f, before, rowsBefore);
      }
    }

    /** Memory is where the group began; of its first k rows those remain whose
        compensating delete failed. */
    ghost predicate RolledBack(c: Campaign, ks: seq<string>, base: nat, k: nat, f: GroupFaults, before: map<string, Position>, rowsBefore: map<string, Row>)
      requires k <= |ks|
      reads this, db
    {
      && Valid() && positions == before && nextId >= base
      && (db != null ==> db.rows == WithStrays(ids, rowsBefore, c, ks, embed, base, k, f.undo))
    }

    lemma ReadyForMember(c: Campaign, ks: seq<string>, base: nat, j: nat, before: map<string, Position>, rowsBefore: map<string, Row>)
      requires j < |ks| && Begun(ids, before, rowsBefore, base) && Progress(c, ks, base, j, before, rowsBefore)
      ensures Valid() && (j > 0 ==> ids.of(base + 1) in positions && positions[ids.of(base + 1)].budgetId == "")
    {
      ProgressIsValid(c, ks, base, j, before, rowsBefore);
      if j > 0 {
        MemberAt(ids, before, c, ks, embed, base, j, 0);
      }
    }

    /** One position per keyword on one budget, all or nothing in memory: if any
        keyword cannot be embedded, inserted or recorded, the positions are what
        they were. In the table only the rows remain whose compensating delete
        failed, so if none failed, the rows are what they were, too. */
    method RegisterKeywordGroupWithBudget(c: Campaign, keywords: seq<string>, f: GroupFaults) returns (group: Option<seq<Position>>)
      requires Valid()
      modifies this`positions, this`nextId, this`embeddingsVersion, db
      ensures Valid()
      ensures var ks := Keywords.Clean(keywords);
              group.Some? <==> ks != [] && MembersOk(embed, ks, db != null, f, |ks|)
      ensures group.None? ==> positions == old(positions) && nextId >= old(nextId)
      ensures group.None? && db != null ==>
                var ks := Keywords.Clean(keywords);
                && db.rows == WithStrays(ids, old(db.rows), c, ks, embed, old(nextId), Inserts(embed, ks, f, |ks|), f.undo)
                && (db.rows == old(db.rows) <==> NoneFails(f.undo, Inserts(embed, ks, f, |ks|)))
      ensures group.Some? ==>
                var ks, base := Keywords.Clean(keywords), old(nextId);
                && positions == WithMembers(ids, old(positions), c, ks, embed, base, |ks|) && nextId == base + |ks|
                && (db != null ==> db.rows == WithRows(ids, old(db.rows), c, ks, embed, base, |ks|))
                && group.value == MembersOf(ids, c, ks, embed, base, |ks|)
      ensures var ks := Keywords.Clean(keywords);
              && (group.Some? <==> ks != [] && AllWork(embed, ks, db != null, f))
              && (group.Some? ==>
                    && IsGroup(ids, c, ks, embed, old(nextId), group.value)
                    && AddsMembers(ids, c, ks, embed, old(nextId), old(positions), positions)
                    && (db != null ==> AddsRows(ids, c, ks, embed, old(nextId), old(db.rows), db.rows)))
    {
      var ks := Keywords.CleanList(keywords);
      if |ks| == 0 {
        return None;
      }
      ghost var k := Inserts(embed, ks, f, |ks|);
      if db != null {
        NoStraysIffUndone(ids, db.rows, c, ks, embed, nextId, k, f.undo);
      }
      GroupMeans(c, ks, f, if db != null then db.rows else map[]);
      group := RegisterAll(c, ks, f);
    }

    /** What the names in the contract of a group stand for. */
    lemma GroupMeans(c: Campaign, ks: seq<string>, f: GroupFaults, rows: map<string, Row>)
      requires Filed(ids, positions, nextId) && RowsFiled(ids, rows, nextId)
      ensures MembersOk(embed, ks, db != null, f, |ks|) <==> AllWork(embed, ks, db != null, f)
      ensures AllWork(embed, ks, db != null, f) ==>
                && IsGroup(ids, c, ks, embed, nextId, MembersOf(ids, c, ks, embed, nextId, |ks|))
                && AddsMembers(ids, c, ks, embed, nextId, positions, WithMembers(ids, positions, c, ks, embed, nextId, |ks|))
                && AddsRows(ids, c, ks, embed, nextId, rows, WithRows(ids, rows, c, ks, embed, nextId, |ks|))
    {
      MembersOkIff(embed, ks, db != null, f, |ks|);
      assert ks[..|ks|] == ks;
      if AllWork(embed, ks, db != null, f) {
        MembersOfIsGroup(ids, c, ks, embed, nextId);
        WithMembersAdds(ids, positions, c, ks, embed, nextId);
        WithRowsAdds(ids, rows, c, ks, embed, nextId);
      }
    }

    method RegisterAll(c: Campaign, ks: seq<string>, f: GroupFaults) returns (group: Option<seq<Position>>)
      requires Valid()
      modifies this`positions, this`nextId, this`embeddingsVersion, db
      ensures Valid() && (group.Some? <==> MembersOk(embed, ks, db != null, f, |ks|))
      ensures group.None? ==> positions == old(positions) && nextId >= old(nextId)
      ensures group.None? && db != null ==>
                db.rows == WithStrays(ids, old(db.rows), c, ks, embed, old(nextId), Inserts(embed, ks, f, |ks|), f.undo)
      ensures group.Some? ==>
                && positions == WithMembers(ids, old(positions), c, ks, embed, old(nextId), |ks|) && nextId == old(nextId) + |ks|
                && (db != null ==> db.rows == WithRows(ids, old(db.rows), c, ks, embed, old(nextId), |ks|))
                && group.value == MembersOf(ids, c, ks, embed, old(nextId), |ks|)
    {
      var base := nextId;
      ghost var before := positions;
      ghost var rowsBefore: map<string, Row> := if db != null then db.rows else map[];
      group := ExtendAll(c, ks, base, f, before, rowsBefore);
      if group.Some? {
        ProgressIsValid(c, ks, base, |ks|, before, rowsBefore);
      }
    }

    method ExtendAll(c: Campaign, ks: seq<string>, base: nat, f: GroupFaults, ghost before: map<string, Position>, ghost rowsBefore: map<string, Row>)
        returns (group: Option<seq<Position>>)
      requires Begun(ids, before, rowsBefore, base) && Standing(c, ks, base, 0, f, [], before, rowsBefore)
      modifies this`positions, this`nextId, this`embeddingsVersion, db
      ensures group.Some? ==> Standing(c, ks, base, |ks|, f, group.value, before, rowsBefore)
      ensures group.None? ==> !MembersOk(embed, ks, db != null, f, |ks|)
      ensures group.None? && db != null ==> RolledBack(c, ks, base, Inserts(embed, ks, f, |ks|), f, before, rowsBefore)
      ensures group.None? ==> Valid() && positions == before && nextId >= base
    {
      var members: seq<Position> := [];
      for j := 0 to |ks|
        invariant Standing(c, ks, base, j, f, members, before, rowsBefore)
      {
        var ok;
        ok, members := Extend(c, ks, base, j, f, members, before, rowsBefore);
        if !ok {
          return None;
        }
      }
      return Some(members);
    }

    ghost predicate Standing(c: Campaign, ks: seq<string>, base: nat, k: nat, f: GroupFaults, members: seq<Position>,
                             before: map<string, Position>, rowsBefore: map<string, Row>)
      requires k <= |ks|
      reads this, db
    {
      && Progress(c, ks, base, k, before, rowsBefore)
      && members == MembersOf(ids, c, ks, embed, base, k) && MembersOk(embed, ks, db != null, f, k)
    }

    method Extend(c: Campaign, ks: seq<string>, base: nat, j: nat, f: GroupFaults, members: seq<Position>,
                  ghost before: map<string, Position>, ghost rowsBefore: map<string, Row>) returns (ok: bool, more: seq<Position>)
      requires j < |ks| && Begun(ids, before, rowsBefore, base) && Standing(c, ks, base, j, f, members, before, rowsBefore)
      modifies this`positions, this`nextId, this`embeddingsVersion, db
      ensures ok ==> Standing(c, ks, base, j + 1, f, more, before, rowsBefore)
      ensures !ok ==> !MembersOk(embed, ks, db != null, f, |ks|)
      ensures !ok && db != null ==> RolledBack(c, ks, base, Inserts(embed, ks, f, |ks|), f, before, rowsBefore)
      ensures !ok ==> Valid() && positions == before && nextId >= base
    {
      var pos := NextMember(c, ks, base, j, f, before, rowsBefore);
      ok, more := pos.Some?, members;
      if ok {
        more := members + [pos.value];
      } else {
        OneFailsAll(embed, ks, db != null, f, j, |ks|);
        if db != null {
          InsertsStop(embed, ks, f, j, |ks|);
        }
      }
    }

    /** existing is what the registry held when the update began, under another
        lock than the write: the update writes back what it then read, whatever
        became of it. A failed write to the table is reported, but the position
        in memory is changed. */
    method Update(id: string, existing: Option<Position>, e: Edit, updateFails: bool, historyFails: bool) returns (pos: Option<Position>)
      requires existing.Some? ==> existing.value.id == id
      modifies this`positions, this`embeddingsVersion, db
      ensures var new_ := Edited(existing, embed, e);
              && Held() == (if new_.Some? then Stepped(digest, old(Held()), Put(new_.value)) else old(Held()))
              && (pos.Some? ==> pos == new_)
              && (pos.Some? <==> new_.Some? && (db != null ==> !updateFails && id in old(db.rows)))
              && (db != null ==>
                    db.rows == if pos.Some? then old(db.rows)[id := Rewritten(old(db.rows)[id], pos.value)] else old(db.rows))
      ensures old(Valid()) && existing == At(old(positions), id) ==> Valid()
    {
      var updated := ApplyEdit(existing, e);
      if updated.None? {
        return None;
      }
      if Valid() && existing == At(positions, id) {
        ChangeKeepsHeads(positions, updated.value);
      }
      Replace(updated.value);
      if db != null {
        var err := SaveUpdate(updated.value, updateFails, historyFails);
        if err {
          return None;
        }
      }
      return updated;
    }

    method ApplyEdit(seen: Option<Position>, e: Edit) returns (updated: Option<Position>)
      ensures updated == Edited(seen, embed, e)
    {
      if seen.None? {
        return None;
      }
      var existing := seen.value;
      var embedding := existing.embedding;
      if e.intent != "" && e.intent != existing.intent {
        var r := embed(e.intent);
        if r.None? {
          return None;
        }
        embedding := r.value;
      }
      var name := if e.name == "" then existing.name else e.name;
      var intent := if e.intent == "" then existing.intent else e.intent;
      var sigma := if e.sigma < 0.0 then existing.sigma else e.sigma;
      var bidPrice := if e.bidPrice == 0.0 then existing.bidPrice else e.bidPrice;
      var url := if e.url == "" then existing.url else e.url;
      return Some(Position(existing.id, name, intent, embedding, sigma, bidPrice, existing.currency, url, existing.budgetId));
    }

    method Replace(p: Position)
      modifies `positions, `embeddingsVersion
      ensures Held() == Stepped(digest, old(Held()), Put(p))
    {
      positions := positions[p.id := p];
      embeddingsVersion := "";
    }

    method SaveUpdate(p: Position, updateFails: bool, historyFails: bool) returns (err: bool)
      requires db != null
      modifies db
      ensures err <==> updateFails || p.id !in old(db.rows)
      ensures db.rows == if err then old(db.rows) else old(db.rows)[p.id := Rewritten(old(db.rows)[p.id], p)]
      ensures old(RowsFiled(ids, db.rows, nextId)) ==> RowsFiled(ids, db.rows, nextId)
    {
      err := db.UpdateAdvertiser(p, updateFails);
      if !err {
        var _ := db.RecordPositionChange(p.id, historyFails);
      }
    }

    /** Deleting a head deletes its whole group from memory; the rows go one by
        one, up to the first that cannot be deleted. */
    method Delete(id: string, iteration: seq<string>, fails: nat -> bool) returns (err: bool, ghost k: nat)
      requires Valid() && Distinct(iteration) && forall x :: x in iteration <==> x in positions
      modifies this`positions, this`embeddingsVersion, db
      ensures Valid()
      ensures id !in old(positions) ==> err && positions == old(positions) && (db != null ==> db.rows == old(db.rows))
      ensures id in old(positions) ==>
                var order := DeleteOrder(old(positions), id, iteration);
                && positions == old(positions) - Group(old(positions), id)
                && (forall x :: x in positions <==> x in old(positions) && x != id && old(positions)[x].budgetId != id)
                && order[0] == id && (forall x :: x in order <==> x == id || (x in old(positions) && old(positions)[x].budgetId == id))
                && (db == null ==> !err)
                && (db != null ==> k <= |order| && db.rows == old(db.rows) - Firsts(order, k) && (err <==> k < |order|))
    {
      k := 0;
      if id !in positions {
        return true, 0;
      }
      var order := CollectGroup(id, iteration);
      OrderIsGroup(positions, id, iteration);
      GroupDropKeepsHeads(ids, positions, id, nextId);
      DropOrder(order, id, iteration);
      err := false;
      if db != null {
        err, k := DeleteRows(order, fails);
      }
    }

    method CollectGroup(id: string, iteration: seq<string>) returns (order: seq<string>)
      requires forall x :: x in iteration ==> x in positions
      ensures order == DeleteOrder(positions, id, iteration)
    {
      order := [id];
      for i := 0 to |iteration|
        invariant order == DeleteOrder(positions, id, iteration[..i])
      {
        assert iteration[..i + 1][..i] == iteration[..i];
        assert iteration[i] in iteration;
        if positions[iteration[i]].budgetId == id {
          order := order + [iteration[i]];
        }
      }
      assert iteration[..|iteration|] == iteration;
    }

    method DropOrder(order: seq<string>, id: string, iteration: seq<string>)
      requires forall x :: x in iteration <==> x in positions
      requires order == DeleteOrder(positions, id, iteration)
      modifies `positions, `embeddingsVersion
      ensures positions == old(positions) - Group(old(positions), id) && embeddingsVersion == ""
      ensures id in old(positions) ==> Held() == Stepped(digest, old(Held()), Drop(id))
    {
      ghost var before := positions;
      for i := 0 to |order|
        invariant positions == before - Firsts(order, i)
      {
        DropOneMore(before, Firsts(order, i), order[i]);
        positions := positions - {order[i]};
      }
      OrderListsGroup(before, id, iteration);
      embeddingsVersion := "";
    }

    method DeleteRows(order: seq<string>, fails: nat -> bool) returns (err: bool, ghost k: nat)
      requires db != null
      modifies db
      ensures k <= |order| && db.rows == old(db.rows) - Firsts(order, k) && (err <==> k < |order|)
    {
      k := 0;
      ghost var before := db.rows;
      for i := 0 to |order|
        invariant k == i && db.rows == before - Firsts(order, i)
      {
        DropOneMore(before, Firsts(order, i), order[i]);
        err := db.DeleteAdvertiser(order[i], fails(i));
        if err {
          return;
        }
        k := k + 1;
      }
      err := false;
    }

    /** Loads the table. If the highest ID cannot be read, numbering starts over. */
    method SetDB(table: AdvertiserTable, listing: seq<string>, readFails: bool, maxFails: bool) returns (err: bool)
      requires forall id :: id in listing <==> id in table.rows
      modifies this
      ensures db == table && err == readFails
      ensures readFails ==> positions == old(positions) && nextId == old(nextId) && embeddingsVersion == old(embeddingsVersion)
      ensures !readFails ==>
                && positions == LoadedOver(old(positions), table.rows, listing)
                && nextId == (if maxFails then 0 else MaxNumber(ids, listing)) && embeddingsVersion == ""
      ensures !readFails && old(positions) == map[] && RowsIssued(ids, table.rows) ==>
                (Valid() <==> RowsHeaded(table.rows) && (maxFails ==> table.rows == map[]))
    {
      db := table;
      if readFails {
        return true;
      }
      ghost var before := positions;
      for i := 0 to |listing|
        invariant db == table && embeddingsVersion == old(embeddingsVersion)
        invariant positions == LoadedOver(before, table.rows, listing[..i])
      {
        assert listing[i] in listing;
        assert listing[..i + 1][..i] == listing[..i];
        positions := positions[listing[i] := table.rows[listing[i]].position];
      }
      assert listing[..|listing|] == listing;
      embeddingsVersion := "";
      nextId := if maxFails then 0 else MaxNumber(ids, listing);
      if before == map[] && RowsIssued(ids, table.rows) {
        LoadedIsSound(ids, table.rows, listing, maxFails);
      }
      return false;
    }
  }

  // ----- deleting a group -----

  function Group(positions: map<string, Position>, id: string): set<string> {
    {id} + set x | x in positions && positions[x].budgetId == id
  }

  function DeleteOrder(positions: map<string, Position>, id: string, iteration: seq<string>): (r: seq<string>)
    requires forall x :: x in iteration ==> x in positions
    ensures r != [] && r[0] == id
  {
    if iteration == [] then [id]
    else
      var last := iteration[|iteration| - 1];
      assert last in iteration;
      DeleteOrder(positions, id, iteration[..|iteration| - 1]) + if positions[last].budgetId == id then [last] else []
  }

  function Firsts(order: seq<string>, k: nat): set<string>
    requires k <= |order|
  {
    if k == 0 then {} else Firsts(order, k - 1) + {order[k - 1]}
  }

  lemma {:induction false} FirstsAre(order: seq<string>, k: nat, x: string)
    requires k <= |order|
    ensures x in Firsts(order, k) <==> x in order[..k]
  {
    if k > 0 {
      FirstsAre(order, k - 1, x);
      assert order[..k] == order[..k - 1] + [order[k - 1]];
    }
  }

  lemma {:induction false} OrderHas(positions: map<string, Position>, id: string, iteration: seq<string>, x: string)
    requires forall y :: y in iteration ==> y in positions
    ensures x in DeleteOrder(positions, id, iteration) <==> x == id || (x in iteration && positions[x].budgetId == id)
  {
    if iteration != [] {
      var n := |iteration| - 1;
      OrderHas(positions, id, iteration[..n], x);
      assert iteration == iteration[..n] + [iteration[n]];
    }
  }

  lemma OrderIsGroup(positions: map<string, Position>, id: string, iteration: seq<string>)
    requires forall x :: x in iteration <==> x in positions
    ensures forall x :: x in DeleteOrder(positions, id, iteration) <==> x == id || (x in positions && positions[x].budgetId == id)
  {
    forall x ensures x in DeleteOrder(positions, id, iteration) <==> x == id || (x in positions && positions[x].budgetId == id) {
      OrderHas(positions, id, iteration, x);
    }
  }

  lemma OrderListsGroup(positions: map<string, Position>, id: string, iteration: seq<string>)
    requires forall x :: x in iteration <==> x in positions
    ensures var order := DeleteOrder(positions, id, iteration); Firsts(order, |order|) == Group(positions, id)
  {
    var order := DeleteOrder(positions, id, iteration);
    assert order[..|order|] == order;
    forall x ensures x in Firsts(order, |order|) <==> x in Group(positions, id) {
      FirstsAre(order, |order|, x);
      OrderHas(positions, id, iteration, x);
    }
  }

  /** Without the group of id, whoever is left keeps its head. */
  lemma GroupDropKeepsHeads(ids: Ids, positions: map<string, Position>, id: string, n: nat)
    requires Filed(ids, positions, n) && Headed(positions) && id in positions
    ensures Filed(ids, positions - Group(positions, id), n) && Headed(positions - Group(positions, id))
  {
    var left := positions - Group(positions, id);
    forall x | x in left ensures HasHead(left, x) {
      LeftKeepsHead(ids, positions, id, n, x);
    }
  }

  lemma LeftKeepsHead(ids: Ids, positions: map<string, Position>, id: string, n: nat, x: string)
    requires Filed(ids, positions, n) && Headed(positions) && id in positions && x in positions - Group(positions, id)
    ensures HasHead(positions - Group(positions, id), x)
  {
    assert HasHead(positions, x);
    IdReads(ids, ids.number(id));
  }

  // ----- the table, deleted in part -----

  ghost predicate RowsHeaded(rows: map<string, Row>) {
    forall id :: id in rows ==> RowHasHead(rows, id)
  }

  predicate RowHasHead(rows: map<string, Row>, id: string)
    requires id in rows
  {
    var head := rows[id].position.budgetId;
    head != "" ==> head in rows && rows[head].position.budgetId == ""
  }

  /** Deleting the head's row and then the members' leaves no stranded member
      exactly if nothing or everything of the group was deleted. */
  lemma PartialDeleteStrandsMembers(rows: map<string, Row>, id: string, order: seq<string>, k: nat)
    requires RowsHeaded(rows) && id in rows && id != "" && k <= |order|
    requires Distinct(order) && order != [] && order[0] == id
    requires forall x :: x in order <==> x == id || (x in rows && rows[x].position.budgetId == id)
    ensures RowsHeaded(rows - Firsts(order, k)) <==> k == 0 || k == |order|
  {
    var left := rows - Firsts(order, k);
    if 0 < k < |order| {
      var x := order[k];
      assert x in order && order[0] != order[k];
      NotAmongFirsts(order, k, k);
      FirstsAre(order, k, id);
      assert id == order[..k][0];
      assert !RowHasHead(left, x);
    } else if k == |order| {
      forall x | x in left ensures RowHasHead(left, x) {
        FirstsAre(order, k, x);
        assert order[..k] == order;
        assert RowHasHead(rows, x);
        var head := rows[x].position.budgetId;
        if head != "" {
          FirstsAre(order, k, head);
        }
      }
    } else {
      assert left == rows;
    }
  }

  lemma NotAmongFirsts(order: seq<string>, k: nat, i: nat)
    requires Distinct(order) && k <= i < |order|
    ensures order[i] !in Firsts(order, k)
  {
    FirstsAre(order, k, order[i]);
  }

  // ----- loading -----

  ghost predicate RowsIssued(ids: Ids, rows: map<string, Row>) {
    forall id :: id in rows ==> rows[id].position.id == id && ids.number(id) >= 1 && id == ids.of(ids.number(id))
  }

  ghost predicate LoadedAs(positions: map<string, Position>, rows: map<string, Row>, listing: seq<string>) {
    forall id :: (id in positions <==> id in listing) && (id in positions && id in rows ==> positions[id] == rows[id].position)
  }

  function LoadedOver(positions: map<string, Position>, rows: map<string, Row>, listing: seq<string>): map<string, Position> {
    if listing == [] then positions
    else
      var last, rest := listing[|listing| - 1], LoadedOver(positions, rows, listing[..|listing| - 1]);
      if last in rows then rest[last := rows[last].position] else rest
  }

  lemma {:induction false} LoadedIsLoaded(rows: map<string, Row>, listing: seq<string>)
    requires forall id :: id in listing ==> id in rows
    ensures LoadedAs(LoadedOver(map[], rows, listing), rows, listing)
  {
    if listing != [] {
      var n := |listing| - 1;
      assert listing[n] in listing && listing == listing[..n] + [listing[n]];
      LoadedIsLoaded(rows, listing[..n]);
    }
  }

  function MaxNumber(ids: Ids, listing: seq<string>): nat {
    if listing == [] then 0
    else
      var n, rest := ids.number(listing[|listing| - 1]), MaxNumber(ids, listing[..|listing| - 1]);
      if n > rest then n else rest
  }

  lemma {:induction false} MaxNumberCovers(ids: Ids, listing: seq<string>, id: string)
    requires id in listing
    ensures ids.number(id) <= MaxNumber(ids, listing)
  {
    var n := |listing| - 1;
    assert listing == listing[..n] + [listing[n]];
    if id != listing[n] {
      MaxNumberCovers(ids, listing[..n], id);
    }
  }

  lemma LoadedIsSound(ids: Ids, rows: map<string, Row>, listing: seq<string>, maxFails: bool)
    requires RowsIssued(ids, rows) && forall id :: id in listing <==> id in rows
    ensures var n, positions := if maxFails then 0 else MaxNumber(ids, listing), LoadedOver(map[], rows, listing);
            Filed(ids, positions, n) && Headed(positions) && RowsFiled(ids, rows, n) <==> RowsHeaded(rows) && (maxFails ==> rows == map[])
  {
    var positions := LoadedOver(map[], rows, listing);
    LoadedIsLoaded(rows, listing);
    forall id | id in rows ensures RowHasHead(rows, id) <==> HasHead(positions, id) {
      assert positions[id] == rows[id].position;
    }
    forall id | id in listing ensures ids.number(id) <= MaxNumber(ids, listing) {
      MaxNumberCovers(ids, listing, id);
    }
  }

  // ----- numbering after a load -----

  /** The positions after registering ps one by one, when n IDs had been issued. */
  function Registrations(ids: Ids, positions: map<string, Position>, n: nat, ps: seq<Position>): map<string, Position> {
    if ps == [] then positions
    else Registrations(ids, positions, n, ps[..|ps| - 1])[ids.of(n + |ps|) := ps[|ps| - 1]]
  }

  lemma {:induction false} RegistrationsReach(ids: Ids, positions: map<string, Position>, n: nat, ps: seq<Position>, j: nat)
    requires j > |ps|
    ensures ids.of(n + j) in Registrations(ids, positions, n, ps) <==> ids.of(n + j) in positions
  {
    if ps != [] {
      RegistrationsReach(ids, positions, n, ps[..|ps| - 1], j);
      IdsDiffer(ids, n + j, n + |ps|);
    }
  }

  /** If the highest ID could not be read, the k-th registration after the load
      replaces a live position exactly if the row of the k-th ID was loaded. */
  lemma RestartedNumberingReplaces(ids: Ids, rows: map<string, Row>, listing: seq<string>, ps: seq<Position>)
    requires forall id :: id in listing <==> id in rows
    ensures var k := |ps| + 1;
            ids.of(k) in Registrations(ids, LoadedOver(map[], rows, listing), 0, ps) <==> ids.of(k) in rows
  {
    LoadedIsLoaded(rows, listing);
    RegistrationsReach(ids, LoadedOver(map[], rows, listing), 0, ps, |ps| + 1);
  }

  /** So the next one does exactly if adv-1 is among the rows. */
  lemma NextReplacesIffAdv1(rows: map<string, Row>, listing: seq<string>)
    requires forall id :: id in listing <==> id in rows
    ensures IdOf(1) == "adv-1"
    ensures AdvIds().of(1) in LoadedOver(map[], rows, listing) <==> "adv-1" in rows
  {
    RestartedNumberingReplaces(AdvIds(), rows, listing, []);
    assert Decimal(1) == "1";
  }

  ghost predicate NumberedUpTo(ids: Ids, positions: map<string, Position>, n: int) {
    forall id :: id in positions ==> ids.number(id) <= n
  }

  lemma LoadedUpToTheHighest(ids: Ids, rows: map<string, Row>, listing: seq<string>)
    requires forall id :: id in listing <==> id in rows
    ensures NumberedUpTo(ids, LoadedOver(map[], rows, listing), MaxNumber(ids, listing))
  {
    LoadedIsLoaded(rows, listing);
    forall id | id in LoadedOver(map[], rows, listing) ensures ids.number(id) <= MaxNumber(ids, listing) {
      MaxNumberCovers(ids, listing, id);
    }
  }

  lemma FreeBeyond(ids: Ids, positions: map<string, Position>, n: nat, ps: seq<Position>)
    requires NumberedUpTo(ids, positions, n)
    ensures ids.of(n + |ps| + 1) !in Registrations(ids, positions, n, ps)
  {
    var k := |ps| + 1;
    IdReads(ids, n + k);
    RegistrationsReach(ids, positions, n, ps, k);
  }

  /** Had it been read, none ever would. */
  lemma ContinuedNumberingReplacesNothing(ids: Ids, rows: map<string, Row>, listing: seq<string>, ps: seq<Position>)
    requires forall id :: id in listing <==> id in rows
    ensures var n := MaxNumber(ids, listing);
            ids.of(n + |ps| + 1) !in Registrations(ids, LoadedOver(map[], rows, listing), n, ps)
  {
    LoadedUpToTheHighest(ids, rows, listing);
    FreeBeyond(ids, LoadedOver(map[], rows, listing), MaxNumber(ids, listing), ps);
  }

  /** The highest number of an ID in the listing is that of one of them. */
  lemma {:induction false} MaxNumberAttained(ids: Ids, listing: seq<string>)
    ensures MaxNumber(ids, listing) > 0 ==> exists id :: id in listing && ids.number(id) == MaxNumber(ids, listing)
  {
    if listing != [] {
      var n := |listing| - 1;
      MaxNumberAttained(ids, listing[..n]);
      assert listing[n] in listing && forall id :: id in listing[..n] ==> id in listing;
    }
  }

  /** The k-th registration from number n on is issued this ID. */
  predicate Reissues(ids: Ids, n: nat, k: nat, id: string) {
    k > 0 && ids.of(n + k) == id
  }

  /** After a restart the IDs above the highest one left in the table are issued
      again, to whatever is registered next, and no others. */
  lemma RestartReissuesIff(ids: Ids, listing: seq<string>, j: nat)
    ensures (exists k: nat :: Reissues(ids, MaxNumber(ids, listing), k, ids.of(j))) <==> j > MaxNumber(ids, listing)
  {
    var n := MaxNumber(ids, listing);
    forall k: nat | Reissues(ids, n, k, ids.of(j)) ensures j == n + k {
      IdReads(ids, n + k);
      IdReads(ids, j);
    }
    if j > n {
      var k: nat := j - n;
      assert Reissues(ids, n, k, ids.of(j));
    }
  }

  datatype Edit = Edit(name: string, intent: string, url: string, sigma: real, bidPrice: real)

  /** Empty strings, a negative sigma and a zero price keep what was there; ID,
      currency and budget are kept always. */
  function Edited(existing: Option<Position>, embed: string -> Option<seq<real>>, e: Edit): (r: Option<Position>)
    ensures r.Some? ==> existing.Some? && r.value.id == existing.value.id
                        && r.value.budgetId == existing.value.budgetId && r.value.currency == existing.value.currency
  {
    if existing.None? then None
    else
      var p := existing.value;
      var moves := e.intent != "" && e.intent != p.intent;
      if moves && embed(e.intent).None? then None
      else
        Some(Position(p.id, if e.name == "" then p.name else e.name, if e.intent == "" then p.intent else e.intent,
                      if moves then embed(e.intent).value else p.embedding, if e.sigma < 0.0 then p.sigma else e.sigma,
                      if e.bidPrice == 0.0 then p.bidPrice else e.bidPrice, p.currency, if e.url == "" then p.url else e.url, p.budgetId))
  }

  /** An update fails exactly if there is nothing to update or the new intent
      cannot be embedded. It keeps ID, currency and budget; an empty text, a
      negative sigma and a zero price keep what was there; a changed intent
      brings its own embedding. */
  lemma EditedExactly(p: Position, embed: string -> Option<seq<real>>, e: Edit)
    ensures Edited(None, embed, e) == None
    ensures Edited(Some(p), embed, e).None? <==> e.intent != "" && e.intent != p.intent && embed(e.intent).None?
    ensures Edited(Some(p), embed, e).Some? ==>
              var q := Edited(Some(p), embed, e).value;
              && q.id == p.id && q.currency == p.currency && q.budgetId == p.budgetId
              && (e.name == "" ==> q.name == p.name) && (e.name != "" ==> q.name == e.name)
              && (e.url == "" ==> q.url == p.url) && (e.url != "" ==> q.url == e.url)
              && (e.sigma < 0.0 ==> q.sigma == p.sigma) && (e.sigma >= 0.0 ==> q.sigma == e.sigma)
              && (e.bidPrice == 0.0 ==> q.bidPrice == p.bidPrice) && (e.bidPrice != 0.0 ==> q.bidPrice == e.bidPrice)
              && (e.intent == "" || e.intent == p.intent ==> q.intent == p.intent && q.embedding == p.embedding)
              && (e.intent != "" && e.intent != p.intent ==> q.intent == e.intent && embed(e.intent) == Some(q.embedding))
  {
  }

  function At(positions: map<string, Position>, id: string): Option<Position> {
    if id in positions then Some(positions[id]) else None
  }

  lemma ChangeKeepsHeads(positions: map<string, Position>, p: Position)
    requires Headed(positions) && p.id in positions && positions[p.id].budgetId == p.budgetId
    ensures Headed(positions[p.id := p])
  {
    forall id | id in positions ensures HasHead(positions[p.id := p], id) {
      assert HasHead(positions, id);
    }
  }
}
