/** The trust ledger (trust/ledger.go, trust/smtp.go): attestations, the edges
    they produce, and an append-only log.

    Every operation runs in one database transaction: when any statement of it
    fails, nothing of it remains. JSON documents are maps from names to values
    that survive being stored and read back; timestamps are left out. */
module TrustLedger {
  import opened Wrappers
  import opened Sequences

  datatype Json = JString(s: string) | JNumber(n: real) | JOther

  type Payload = map<string, Json>

  datatype Status = Pending | Confirmed | Revoked

  datatype Kind = Bilateral | Unilateral

  datatype Attestation = Attestation(
    typ: string, attestor: string, subject: string, status: Status, kind: Kind, dkim: bool, payload: Payload)

  datatype Edge = Edge(id: nat, attestation: string, from: string, to: string, kind: Kind, typ: string, weight: real)

  datatype LogAction = DidAttest(payload: Payload) | DidConfirm | DidRevoke(reason: string)

  datatype LogEntry = LogEntry(action: LogAction, attestation: string, sender: string, dkim: bool)

  datatype Tables = Tables(atts: map<string, Attestation>, edges: seq<Edge>, nextEdge: nat, log: seq<LogEntry>)

  const EMPTY := Tables(map[], [], 1, [])

  datatype LedgerError =
    | StorageFailed | Duplicate | NotFound | NotPending | WrongConfirmer | AlreadyRevoked | NotAParty
    | MissingField(name: string) | DkimRequired

  // ----- the weight of an edge -----

  function NumberField(payload: Payload, name: string): Option<real> {
    if name in payload && payload[name].JNumber? then Some(payload[name].n) else None
  }

  predicate PositiveField(payload: Payload, name: string) {
    NumberField(payload, name).Some? && NumberField(payload, name).value > 0.0
  }

  /** A positive review count decides the weight; otherwise the duration does. */
  function ComputeWeight(payload: Payload): (w: real)
    ensures w > 0.0
    ensures PositiveField(payload, "review_count") ==>
              var count := NumberField(payload, "review_count").value; 100.0 * w == if count >= 10.0 then count else 10.0
    ensures !PositiveField(payload, "review_count") ==>
              w == if PositiveField(payload, "duration_years") then NumberField(payload, "duration_years").value else 1.0
  {
    var byDuration := if PositiveField(payload, "duration_years") then NumberField(payload, "duration_years").value else 1.0;
    if PositiveField(payload, "review_count") then
      var w := NumberField(payload, "review_count").value / 100.0;
      if w < 0.1 then 0.1 else w
    else byDuration
  }

  // ----- the operations -----

  function RecordError(t: Tables, id: string): Option<LedgerError> {
    if id in t.atts then Some(Duplicate) else None
  }

  /** A confirmed unilateral attestation gets its edge at once. */
  function RecordEdges(t: Tables, id: string, a: Attestation): seq<Edge> {
    if a.kind.Unilateral? && a.status.Confirmed?
    then [Edge(t.nextEdge, id, a.attestor, a.subject, Unilateral, a.typ, ComputeWeight(a.payload))]
    else []
  }

  function Record(t: Tables, id: string, a: Attestation): Tables {
    if RecordError(t, id).Some? then t
    else
      var es := RecordEdges(t, id, a);
      Tables(t.atts[id := a], t.edges + es, t.nextEdge + |es|, t.log + [LogEntry(DidAttest(a.payload), id, a.attestor, a.dkim)])
  }

  function ConfirmError(t: Tables, id: string, sender: string): Option<LedgerError> {
    if id !in t.atts then Some(NotFound)
    else if !t.atts[id].status.Pending? then Some(NotPending)
    else if sender != t.atts[id].subject then Some(WrongConfirmer)
    else None
  }

  function MutualEdges(next: nat, id: string, a: Attestation): seq<Edge> {
    var w := ComputeWeight(a.payload);
    [Edge(next, id, a.attestor, a.subject, Bilateral, a.typ, w), Edge(next + 1, id, a.subject, a.attestor, Bilateral, a.typ, w)]
  }

  function Confirm(t: Tables, id: string, sender: string): Tables {
    if ConfirmError(t, id, sender).Some? then t
    else
      Tables(t.atts[id := t.atts[id].(status := Confirmed)], t.edges + MutualEdges(t.nextEdge, id, t.atts[id]), t.nextEdge + 2,
             t.log + [LogEntry(DidConfirm, id, sender, true)])
  }

  function RevokeError(t: Tables, id: string, sender: string): Option<LedgerError> {
    if id !in t.atts then Some(NotFound)
    else if t.atts[id].status.Revoked? then Some(AlreadyRevoked)
    else if sender != t.atts[id].attestor && sender != t.atts[id].subject then Some(NotAParty)
    else None
  }

  /** The edges of one attestation, or of all the others. */
  function EdgesOf(es: seq<Edge>, id: string, own: bool): seq<Edge> {
    Keep(es, Of(id, own))
  }

  function Of(id: string, own: bool): Edge -> bool {
    (e: Edge) => (e.attestation == id) == own
  }

  function Revoke(t: Tables, id: string, sender: string, reason: string): Tables {
    if RevokeError(t, id, sender).Some? then t
    else
      Tables(t.atts[id := t.atts[id].(status := Revoked)], EdgesOf(t.edges, id, false), t.nextEdge,
             t.log + [LogEntry(DidRevoke(reason), id, sender, true)])
  }

  class Ledger {
    var atts: map<string, Attestation>
    var edges: seq<Edge>
    var nextEdge: nat
    var log: seq<LogEntry>

    function State(): Tables
      reads this
    {
      Tables(atts, edges, nextEdge, log)
    }

    constructor ()
      ensures State() == EMPTY
    {
      atts, edges, nextEdge, log := map[], [], 1, [];
    }

    method InsertEdge(id: string, from: string, to: string, kind: Kind, typ: string, weight: real)
      modifies `edges, `nextEdge
      ensures edges == old(edges) + [Edge(old(nextEdge), id, from, to, kind, typ, weight)] && nextEdge == old(nextEdge) + 1
    {
      edges := edges + [Edge(nextEdge, id, from, to, kind, typ, weight)];
      nextEdge := nextEdge + 1;
    }

    method RecordAttestation(id: string, a: Attestation, fails: bool) returns (err: Option<LedgerError>)
      modifies this
      ensures err == if fails then Some(StorageFailed) else RecordError(old(State()), id)
      ensures if fails then err == Some(StorageFailed) else if id in old(atts) then err == Some(Duplicate) else err == None
      ensures State() == if fails then old(State()) else Record(old(State()), id, a)
    {
      if fails {
        return Some(StorageFailed);
      }
      if id in atts {
        return Some(Duplicate);
      }
      atts := atts[id := a];
      log := log + [LogEntry(DidAttest(a.payload), id, a.attestor, a.dkim)];
      if a.kind == Unilateral && a.status == Confirmed {
        InsertEdge(id, a.attestor, a.subject, Unilateral, a.typ, ComputeWeight(a.payload));
      }
      return None;
    }

    method ConfirmAttestation(id: string, confirmer: string, fails: bool) returns (err: Option<LedgerError>)
      modifies this
      ensures err == if fails then Some(StorageFailed) else ConfirmError(old(State()), id, confirmer)
      ensures err == None <==> !fails && id in old(atts) && old(atts)[id].status == Pending && old(atts)[id].subject == confirmer
      ensures err == Some(NotFound) <==> !fails && id !in old(atts)
      ensures err == Some(NotPending) <==> !fails && id in old(atts) && old(atts)[id].status != Pending
      ensures State() == if fails then old(State()) else Confirm(old(State()), id, confirmer)
    {
      if fails {
        return Some(StorageFailed);
      }
      if id !in atts {
        return Some(NotFound);
      }
      var a := atts[id];
      if a.status != Pending {
        return Some(NotPending);
      }
      if confirmer != a.subject {
        return Some(WrongConfirmer);
      }
      atts := atts[id := a.(status := Confirmed)];
      log := log + [LogEntry(DidConfirm, id, confirmer, true)];
      var weight := ComputeWeight(a.payload);
      InsertEdge(id, a.attestor, a.subject, Bilateral, a.typ, weight);
      InsertEdge(id, a.subject, a.attestor, Bilateral, a.typ, weight);
      assert edges == old(edges) + MutualEdges(old(nextEdge), id, a);
      return None;
    }

    method RevokeAttestation(id: string, sender: string, reason: string, fails: bool) returns (err: Option<LedgerError>)
      modifies this
      ensures err == if fails then Some(StorageFailed) else RevokeError(old(State()), id, sender)
      ensures err == None <==> !fails && id in old(atts) && old(atts)[id].status != Revoked && sender in {old(atts)[id].attestor, old(atts)[id].subject}
      ensures err == Some(NotFound) <==> !fails && id !in old(atts)
      ensures err == Some(AlreadyRevoked) <==> !fails && id in old(atts) && old(atts)[id].status == Revoked
      ensures State() == if fails then old(State()) else Revoke(old(State()), id, sender, reason)
    {
      if fails {
        return Some(StorageFailed);
      }
      if id !in atts {
        return Some(NotFound);
      }
      var a := atts[id];
      if a.status == Revoked {
        return Some(AlreadyRevoked);
      }
      if sender != a.attestor && sender != a.subject {
        return Some(NotAParty);
      }
      atts := atts[id := a.(status := Revoked)];
      edges := EdgesOf(edges, id, false);
      log := log + [LogEntry(DidRevoke(reason), id, sender, true)];
      return None;
    }

    /** Routes a message by its action. */
    method ProcessMessage(m: Message, requireDkim: bool) returns (err: Option<LedgerError>)
      modifies this
      ensures State() == Handle(old(State()), m, requireDkim)
      ensures err == HandleError(old(State()), m, requireDkim)
    {
      if requireDkim && !m.dkimValid {
        return Some(DkimRequired);
      }
      var id := StringField(m.payload, "attestation_id");
      if id == "" {
        return Some(MissingField("attestation_id"));
      }
      var action := StringField(m.payload, "action");
      if action == "confirm" {
        err := ConfirmAttestation(id, m.sender, m.fails);
      } else if action == "revoke" {
        err := RevokeAttestation(id, m.sender, StringField(m.payload, "reason"), m.fails);
      } else if StringField(m.payload, "attestation_type") == "" {
        return Some(MissingField("attestation_type"));
      } else if StringField(m.payload, "subject") == "" {
        return Some(MissingField("subject"));
      } else {
        err := RecordAttestation(id, Received(m.payload, m.sender, m.dkimValid), m.fails);
      }
    }
  }

  // ----- messages -----

  datatype Message = Message(payload: Payload, sender: string, dkimValid: bool, fails: bool)

  function StringField(payload: Payload, name: string): string {
    if name in payload && payload[name].JString? then payload[name].s else ""
  }

  /** Platform ratings stand on the sender's word; everything else awaits the subject. */
  function Received(payload: Payload, sender: string, dkimValid: bool): Attestation {
    var rating := StringField(payload, "attestation_type") == "platform_rating";
    Attestation(StringField(payload, "attestation_type"), sender, StringField(payload, "subject"),
                if rating then Confirmed else Pending, if rating then Unilateral else Bilateral, dkimValid, payload)
  }

  function Handle(t: Tables, m: Message, requireDkim: bool): Tables {
    var id := StringField(m.payload, "attestation_id");
    var action := StringField(m.payload, "action");
    if (requireDkim && !m.dkimValid) || id == "" || m.fails then t
    else if action == "confirm" then Confirm(t, id, m.sender)
    else if action == "revoke" then Revoke(t, id, m.sender, StringField(m.payload, "reason"))
    else if StringField(m.payload, "attestation_type") == "" || StringField(m.payload, "subject") == "" then t
    else Record(t, id, Received(m.payload, m.sender, m.dkimValid))
  }

  /** Why a message is rejected, if it is. */
  function HandleError(t: Tables, m: Message, requireDkim: bool): Option<LedgerError> {
    var id := StringField(m.payload, "attestation_id");
    var action := StringField(m.payload, "action");
    var routed := action == "confirm" || action == "revoke";
    if requireDkim && !m.dkimValid then Some(DkimRequired)
    else if id == "" then Some(MissingField("attestation_id"))
    else if !routed && StringField(m.payload, "attestation_type") == "" then Some(MissingField("attestation_type"))
    else if !routed && StringField(m.payload, "subject") == "" then Some(MissingField("subject"))
    else if m.fails then Some(StorageFailed)
    else if action == "confirm" then ConfirmError(t, id, m.sender)
    else if action == "revoke" then RevokeError(t, id, m.sender)
    else RecordError(t, id)
  }

  /** A message is rejected exactly if it leaves no log entry, and then it changes nothing. */
  lemma RejectedIffUnlogged(t: Tables, m: Message, requireDkim: bool)
    ensures HandleError(t, m, requireDkim).Some? <==> Handle(t, m, requireDkim) == t
    ensures HandleError(t, m, requireDkim).None? <==> |Handle(t, m, requireDkim).log| == |t.log| + 1
  {
  }

  function Run(messages: seq<Message>, requireDkim: bool): Tables {
    if messages == [] then EMPTY
    else Handle(Run(messages[..|messages| - 1], requireDkim), messages[|messages| - 1], requireDkim)
  }

  // ----- replaying the log -----

  function ReplayEntry(t: Tables, e: LogEntry): Tables {
    match e.action
    case DidAttest(payload) => Record(t, e.attestation, Received(payload, e.sender, e.dkim))
    case DidConfirm => Confirm(t, e.attestation, e.sender)
    case DidRevoke(reason) => Revoke(t, e.attestation, e.sender, reason)
  }

  function Replay(log: seq<LogEntry>): Tables {
    if log == [] then EMPTY else ReplayEntry(Replay(log[..|log| - 1]), log[|log| - 1])
  }

  /** A message changes nothing, or does exactly what its one new log entry says. */
  lemma HandledIsLogged(t: Tables, m: Message, requireDkim: bool)
    ensures var t' := Handle(t, m, requireDkim);
            t' == t || (|t'.log| == |t.log| + 1 && t'.log[..|t.log|] == t.log && t' == ReplayEntry(t, t'.log[|t.log|]))
  {
  }

  /** Replaying the log of any run from an empty ledger, rejected, duplicate and
      failed messages included, rebuilds the same attestations, the same edges
      and the same log. */
  lemma {:induction false} ReplayRebuilds(messages: seq<Message>, requireDkim: bool)
    ensures Replay(Run(messages, requireDkim).log) == Run(messages, requireDkim)
  {
    if messages != [] {
      var t := Run(messages[..|messages| - 1], requireDkim);
      ReplayRebuilds(messages[..|messages| - 1], requireDkim);
      HandledIsLogged(t, messages[|messages| - 1], requireDkim);
    }
  }

  // ----- what each attestation has been through -----

  datatype Kept = A | C | R

  /** The actions logged for one attestation. */
  function History(log: seq<LogEntry>, id: string): seq<Kept> {
    if log == [] then []
    else
      var last := log[|log| - 1];
      History(log[..|log| - 1], id) +
      if last.attestation != id then []
      else [match last.action case DidAttest(_) => A case DidConfirm => C case DidRevoke(_) => R]
  }

  lemma HistoryAppend(log: seq<LogEntry>, e: LogEntry, id: string)
    ensures History(log + [e], id) == History(log, id) +
            if e.attestation != id then [] else [match e.action case DidAttest(_) => A case DidConfirm => C case DidRevoke(_) => R]
  {
    assert (log + [e])[..|log|] == log;
  }

  /** What the tables hold about one ID. */
  datatype View = View(att: Option<Attestation>, history: seq<Kept>, edges: seq<Edge>)

  function ViewOf(t: Tables, id: string): View {
    View(if id in t.atts then Some(t.atts[id]) else None, History(t.log, id), EdgesOf(t.edges, id, true))
  }

  /** The actions logged for an attestation fit its status, and the reverse. */
  predicate Lived(v: View) {
    match v.att
    case None => v.history == []
    case Some(a) =>
      match a.status
      case Pending => v.history == [A] && a.kind.Bilateral?
      case Confirmed => v.history == if a.kind.Unilateral? then [A] else [A, C]
      case Revoked => v.history == [A, R] || (v.history == [A, C, R] && a.kind.Bilateral?)
  }

  /** The edges of an attestation are those that its status calls for. */
  predicate Edged(id: string, v: View) {
    if v.att.None? || !v.att.value.status.Confirmed? then v.edges == []
    else
      var a := v.att.value;
      var w := ComputeWeight(a.payload);
      if a.kind.Unilateral? then |v.edges| == 1 && v.edges[0] == Edge(v.edges[0].id, id, a.attestor, a.subject, Unilateral, a.typ, w)
      else
        && |v.edges| == 2 && v.edges[0].id < v.edges[1].id
        && v.edges[0] == Edge(v.edges[0].id, id, a.attestor, a.subject, Bilateral, a.typ, w)
        && v.edges[1] == Edge(v.edges[1].id, id, a.subject, a.attestor, Bilateral, a.typ, w)
  }

  // ----- the effect of each operation on each ID -----

  lemma {:induction false} EdgesOfOthers(es: seq<Edge>, id: string, gone: string)
    ensures EdgesOf(EdgesOf(es, gone, false), id, true) == if id == gone then [] else EdgesOf(es, id, true)
  {
    if es != [] {
      var rest, last := es[..|es| - 1], es[|es| - 1];
      EdgesOfOthers(rest, id, gone);
      KeepConcat(EdgesOf(rest, gone, false), if last.attestation != gone then [last] else [], Of(id, true));
    }
  }

  predicate OwnedBy(es: seq<Edge>, owner: string) {
    forall i :: 0 <= i < |es| ==> es[i].attestation == owner
  }

  lemma {:induction false} EdgesOfOwned(es: seq<Edge>, owner: string, id: string)
    requires OwnedBy(es, owner)
    ensures EdgesOf(es, id, true) == if id == owner then es else []
  {
    if es != [] {
      EdgesOfOwned(es[..|es| - 1], owner, id);
    }
  }

  lemma OwnEdgesAppend(es: seq<Edge>, own: seq<Edge>, owner: string, id: string)
    requires OwnedBy(own, owner)
    ensures EdgesOf(es + own, id, true) == EdgesOf(es, id, true) + if id == owner then own else []
  {
    KeepConcat(es, own, Of(id, true));
    EdgesOfOwned(own, owner, id);
  }

  lemma RecordView(t: Tables, id: string, a: Attestation, other: string)
    ensures var v, es := ViewOf(t, other), RecordEdges(t, id, a);
            ViewOf(Record(t, id, a), other) ==
            if other == id && RecordError(t, id).None? then View(Some(a), v.history + [A], v.edges + es) else v
  {
    if id !in t.atts {
      HistoryAppend(t.log, LogEntry(DidAttest(a.payload), id, a.attestor, a.dkim), other);
      OwnEdgesAppend(t.edges, RecordEdges(t, id, a), id, other);
    }
  }

  lemma ConfirmView(t: Tables, id: string, sender: string, other: string)
    ensures var v := ViewOf(t, other);
            ViewOf(Confirm(t, id, sender), other) ==
            if other == id && ConfirmError(t, id, sender).None?
            then View(Some(t.atts[id].(status := Confirmed)), v.history + [C], v.edges + MutualEdges(t.nextEdge, id, t.atts[id]))
            else v
  {
    if ConfirmError(t, id, sender).None? {
      HistoryAppend(t.log, LogEntry(DidConfirm, id, sender, true), other);
      OwnEdgesAppend(t.edges, MutualEdges(t.nextEdge, id, t.atts[id]), id, other);
    }
  }

  lemma RevokeView(t: Tables, id: string, sender: string, reason: string, other: string)
    ensures var v := ViewOf(t, other);
            ViewOf(Revoke(t, id, sender, reason), other) ==
            if other == id && RevokeError(t, id, sender).None?
            then View(Some(t.atts[id].(status := Revoked)), v.history + [R], [])
            else v
  {
    if RevokeError(t, id, sender).None? {
      HistoryAppend(t.log, LogEntry(DidRevoke(reason), id, sender, true), other);
      EdgesOfOthers(t.edges, other, id);
    }
  }

  predicate Born(id: string, v: View, v': View) {
    && v.att.None? && v'.att.Some? && v'.history == v.history + [A]
    && var a := v'.att.value;
       if a.kind.Unilateral?
       then a.status.Confirmed? && |v'.edges| == |v.edges| + 1
            && v'.edges == v.edges + [Edge(v'.edges[|v.edges|].id, id, a.attestor, a.subject, Unilateral, a.typ, ComputeWeight(a.payload))]
       else a.status.Pending? && v'.edges == v.edges
  }

  predicate Affirmed(id: string, v: View, v': View) {
    && v.att.Some? && v.att.value.status.Pending? && v'.att == Some(v.att.value.(status := Confirmed))
    && v'.history == v.history + [C]
    && |v'.edges| == |v.edges| + 2
    && v'.edges == v.edges + MutualEdges(v'.edges[|v.edges|].id, id, v.att.value)
  }

  predicate Withdrawn(v: View, v': View) {
    && v.att.Some? && !v.att.value.status.Revoked? && v'.att == Some(v.att.value.(status := Revoked))
    && v'.history == v.history + [R] && v'.edges == []
  }

  predicate Moved(id: string, v: View, v': View) {
    v' == v || Born(id, v, v') || Affirmed(id, v, v') || Withdrawn(v, v')
  }

  lemma RecordMoves(t: Tables, id: string, payload: Payload, sender: string, dkimValid: bool, other: string)
    ensures Moved(other, ViewOf(t, other), ViewOf(Record(t, id, Received(payload, sender, dkimValid)), other))
  {
    RecordView(t, id, Received(payload, sender, dkimValid), other);
  }

  lemma ConfirmMoves(t: Tables, id: string, sender: string, other: string)
    ensures Moved(other, ViewOf(t, other), ViewOf(Confirm(t, id, sender), other))
  {
    ConfirmView(t, id, sender, other);
  }

  lemma RevokeMoves(t: Tables, id: string, sender: string, reason: string, other: string)
    ensures Moved(other, ViewOf(t, other), ViewOf(Revoke(t, id, sender, reason), other))
  {
    RevokeView(t, id, sender, reason, other);
  }

  /** To every ID a message does one of three lawful moves, or nothing. */
  lemma HandleMoves(t: Tables, m: Message, requireDkim: bool, id: string)
    ensures Moved(id, ViewOf(t, id), ViewOf(Handle(t, m, requireDkim), id))
  {
    var target, action := StringField(m.payload, "attestation_id"), StringField(m.payload, "action");
    if action == "confirm" {
      ConfirmMoves(t, target, m.sender, id);
    } else if action == "revoke" {
      RevokeMoves(t, target, m.sender, StringField(m.payload, "reason"), id);
    } else {
      RecordMoves(t, target, m.payload, m.sender, m.dkimValid, id);
    }
  }

  lemma MoveKeeps(id: string, v: View, v': View)
    requires Lived(v) && Edged(id, v) && Moved(id, v, v')
    ensures Lived(v') && Edged(id, v')
  {
  }

  // ----- who may do what -----

  /** The message gets through to the attestation by this ID. */
  predicate Arrives(m: Message, requireDkim: bool, id: string) {
    id != "" && StringField(m.payload, "attestation_id") == id && !m.fails && (m.dkimValid || !requireDkim)
  }

  predicate Attests(m: Message) {
    StringField(m.payload, "action") !in {"confirm", "revoke"}
    && StringField(m.payload, "attestation_type") != "" && StringField(m.payload, "subject") != ""
  }

  /** What the sender of a first message says, as it stands from then on. */
  predicate SaidBy(a: Attestation, m: Message) {
    && a.typ == StringField(m.payload, "attestation_type") && a.subject == StringField(m.payload, "subject")
    && a.attestor == m.sender && a.dkim == m.dkimValid && a.payload == m.payload
    && (if a.typ == "platform_rating" then a.status == Confirmed && a.kind == Unilateral else a.status == Pending && a.kind == Bilateral)
  }

  /** A message that does not get through moves nothing of an ID. */
  lemma OthersMoveNothing(t: Tables, m: Message, requireDkim: bool, id: string)
    requires !Arrives(m, requireDkim, id)
    ensures ViewOf(Handle(t, m, requireDkim), id) == ViewOf(t, id)
    ensures id in t.atts <==> id in Handle(t, m, requireDkim).atts
  {
    var target, action := StringField(m.payload, "attestation_id"), StringField(m.payload, "action");
    if action == "confirm" {
      ConfirmView(t, target, m.sender, id);
    } else if action == "revoke" {
      RevokeView(t, target, m.sender, StringField(m.payload, "reason"), id);
    } else {
      RecordView(t, target, Received(m.payload, m.sender, m.dkimValid), id);
    }
  }

  /** An ID is taken by the first message that gets through and attests, for
      what its sender says. */
  lemma FirstMessageAttests(t: Tables, m: Message, requireDkim: bool, id: string)
    requires id !in t.atts
    ensures var atts := Handle(t, m, requireDkim).atts;
            (id in atts <==> Arrives(m, requireDkim, id) && Attests(m)) && (id in atts ==> SaidBy(atts[id], m))
  {
  }

  /** After that only its status changes. It is confirmed exactly by a message
      of its subject that gets through while it is pending, and revoked exactly
      by one of either party; every other message leaves it as it is. */
  lemma PartiesDecide(t: Tables, m: Message, requireDkim: bool, id: string)
    requires id in t.atts
    ensures var a, atts, action := t.atts[id], Handle(t, m, requireDkim).atts, StringField(m.payload, "action");
            && id in atts && atts[id] == a.(status := atts[id].status)
            && atts[id].status ==
               if Arrives(m, requireDkim, id) && action == "confirm" && a.status == Pending && m.sender == a.subject then Confirmed
               else if Arrives(m, requireDkim, id) && action == "revoke" && (m.sender == a.attestor || m.sender == a.subject) then Revoked
               else a.status
  {
  }

  /** The log entry of a message that changes something carries its sender, ID,
      action and proof of origin; the ledger vouches for confirms and revokes. */
  lemma LoggedAsSent(t: Tables, m: Message, requireDkim: bool)
    requires Handle(t, m, requireDkim) != t
    ensures var log, action := Handle(t, m, requireDkim).log, StringField(m.payload, "action");
            && |log| == |t.log| + 1 && log[..|t.log|] == t.log
            && var e := log[|t.log|];
               && e.sender == m.sender && e.attestation == StringField(m.payload, "attestation_id")
               && (if action == "confirm" then e.action == DidConfirm && e.dkim
                   else if action == "revoke" then e.action == DidRevoke(StringField(m.payload, "reason")) && e.dkim
                   else e.action == DidAttest(m.payload) && e.dkim == m.dkimValid)
  {
  }

  /** Why a message is rejected: for its origin first, then for what it lacks,
      then by the database, and then by the state of its attestation. */
  lemma RejectedFor(t: Tables, m: Message, requireDkim: bool)
    ensures var err, id, action := HandleError(t, m, requireDkim), StringField(m.payload, "attestation_id"), StringField(m.payload, "action");
            var attests := action !in {"confirm", "revoke"};
            var passes := m.dkimValid || !requireDkim;
            && (err == Some(DkimRequired) <==> !passes)
            && (err == Some(MissingField("attestation_id")) <==> passes && id == "")
            && (err == Some(MissingField("attestation_type")) <==>
                  passes && id != "" && attests && StringField(m.payload, "attestation_type") == "")
            && (err == Some(MissingField("subject")) <==>
                  passes && id != "" && attests && StringField(m.payload, "attestation_type") != "" && StringField(m.payload, "subject") == "")
            && (err == Some(StorageFailed) <==> passes && id != "" && m.fails && (attests ==> Attests(m)))
            && (err == Some(Duplicate) <==> Arrives(m, requireDkim, id) && Attests(m) && id in t.atts)
            && (err == Some(NotFound) <==> Arrives(m, requireDkim, id) && !attests && id !in t.atts)
            && (err == Some(WrongConfirmer) <==> Arrives(m, requireDkim, id) && action == "confirm" && id in t.atts
                                                 && t.atts[id].status == Pending && m.sender != t.atts[id].subject)
            && (err == Some(NotAParty) <==> Arrives(m, requireDkim, id) && action == "revoke" && id in t.atts
                                            && t.atts[id].status != Revoked && m.sender !in {t.atts[id].attestor, t.atts[id].subject})
  {
  }

  /** Entry k attests this ID. */
  predicate AttestedAt(log: seq<LogEntry>, k: nat, id: string) {
    k < |log| && log[k].attestation == id && log[k].action.DidAttest?
  }

  /** The attestor and the subject that the log names for an ID. */
  predicate Names(log: seq<LogEntry>, k: nat, id: string, attestor: string, subject: string) {
    AttestedAt(log, k, id) && log[k].sender == attestor && StringField(log[k].action.payload, "subject") == subject
  }

  ghost predicate Named(log: seq<LogEntry>, id: string, attestor: string, subject: string) {
    exists k: nat :: Names(log, k, id, attestor, subject)
  }

  /** Entry i is by someone who was entitled to it: a confirm by the subject that
      an earlier entry names for its ID, a revoke by that subject or attestor. */
  ghost predicate Entitled(log: seq<LogEntry>, i: nat)
    requires i < |log|
  {
    var e := log[i];
    match e.action
    case DidAttest(_) => true
    case DidConfirm => exists k: nat :: k < i && AttestedAt(log, k, e.attestation) && StringField(log[k].action.payload, "subject") == e.sender
    case DidRevoke(_) =>
      exists k: nat :: k < i && AttestedAt(log, k, e.attestation)
                       && (log[k].sender == e.sender || StringField(log[k].action.payload, "subject") == e.sender)
  }

  ghost predicate AllEntitled(log: seq<LogEntry>) {
    forall i: nat :: i < |log| ==> Entitled(log, i)
  }

  /** The log names the parties of every attestation. */
  ghost predicate AllNamed(t: Tables) {
    forall id :: id in t.atts ==> Named(t.log, id, t.atts[id].attestor, t.atts[id].subject)
  }

  lemma NamedLater(log: seq<LogEntry>, e: LogEntry, id: string, attestor: string, subject: string)
    requires Named(log, id, attestor, subject)
    ensures Named(log + [e], id, attestor, subject)
  {
    var k: nat :| Names(log, k, id, attestor, subject);
    assert Names(log + [e], k, id, attestor, subject);
  }

  lemma EntitledLater(log: seq<LogEntry>, e: LogEntry)
    requires AllEntitled(log)
    ensures forall i: nat :: i < |log| ==> Entitled(log + [e], i)
  {
    forall i: nat | i < |log| ensures Entitled(log + [e], i) {
      assert Entitled(log, i);
      if log[i].action.DidConfirm? {
        var k: nat :| k < i && AttestedAt(log, k, log[i].attestation) && StringField(log[k].action.payload, "subject") == log[i].sender;
        assert AttestedAt(log + [e], k, log[i].attestation);
      } else if log[i].action.DidRevoke? {
        var k: nat :| k < i && AttestedAt(log, k, log[i].attestation)
                      && (log[k].sender == log[i].sender || StringField(log[k].action.payload, "subject") == log[i].sender);
        assert AttestedAt(log + [e], k, log[i].attestation);
      }
    }
  }

  /** A new entry is entitled if it attests, or if its sender is a named party. */
  lemma NewEntryEntitled(log: seq<LogEntry>, e: LogEntry, attestor: string, subject: string)
    requires AllEntitled(log) && (!e.action.DidAttest? ==> Named(log, e.attestation, attestor, subject))
    requires e.action.DidConfirm? ==> e.sender == subject
    requires e.action.DidRevoke? ==> e.sender == attestor || e.sender == subject
    ensures AllEntitled(log + [e])
  {
    EntitledLater(log, e);
    if !e.action.DidAttest? {
      var k: nat :| Names(log, k, e.attestation, attestor, subject);
      assert AttestedAt(log + [e], k, e.attestation);
    }
    assert Entitled(log + [e], |log|);
  }

  lemma RecordKeepsEntitled(t: Tables, id: string, payload: Payload, sender: string, dkimValid: bool)
    requires AllNamed(t) && AllEntitled(t.log)
    ensures var t' := Record(t, id, Received(payload, sender, dkimValid)); AllNamed(t') && AllEntitled(t'.log)
  {
    if id !in t.atts {
      var e := LogEntry(DidAttest(payload), id, sender, dkimValid);
      var t' := Record(t, id, Received(payload, sender, dkimValid));
      NewEntryEntitled(t.log, e, "", "");
      forall x | x in t'.atts ensures Named(t'.log, x, t'.atts[x].attestor, t'.atts[x].subject) {
        if x == id {
          assert Names(t'.log, |t.log|, id, sender, StringField(payload, "subject"));
        } else {
          NamedLater(t.log, e, x, t.atts[x].attestor, t.atts[x].subject);
        }
      }
    }
  }

  /** A status change by a party. */
  lemma PartyKeepsEntitled(t: Tables, t': Tables, id: string, e: LogEntry)
    requires AllNamed(t) && AllEntitled(t.log) && id in t.atts && e.attestation == id && t'.log == t.log + [e]
    requires t'.atts.Keys == t.atts.Keys
    requires forall x :: x in t.atts && x in t'.atts ==> t'.atts[x].attestor == t.atts[x].attestor && t'.atts[x].subject == t.atts[x].subject
    requires e.action.DidConfirm? ==> e.sender == t.atts[id].subject
    requires e.action.DidRevoke? ==> e.sender == t.atts[id].attestor || e.sender == t.atts[id].subject
    ensures AllNamed(t') && AllEntitled(t'.log)
  {
    NewEntryEntitled(t.log, e, t.atts[id].attestor, t.atts[id].subject);
    forall x | x in t'.atts ensures Named(t'.log, x, t'.atts[x].attestor, t'.atts[x].subject) {
      NamedLater(t.log, e, x, t.atts[x].attestor, t.atts[x].subject);
    }
  }

  lemma HandleKeepsEntitled(t: Tables, m: Message, requireDkim: bool)
    requires AllNamed(t) && AllEntitled(t.log)
    ensures var t' := Handle(t, m, requireDkim); AllNamed(t') && AllEntitled(t'.log)
  {
    var id, action, t' := StringField(m.payload, "attestation_id"), StringField(m.payload, "action"), Handle(t, m, requireDkim);
    if t' == t {
    } else if action == "confirm" {
      PartyKeepsEntitled(t, t', id, LogEntry(DidConfirm, id, m.sender, true));
    } else if action == "revoke" {
      PartyKeepsEntitled(t, t', id, LogEntry(DidRevoke(StringField(m.payload, "reason")), id, m.sender, true));
    } else {
      RecordKeepsEntitled(t, id, m.payload, m.sender, m.dkimValid);
    }
  }

  /** On every run, by the log alone: who confirms an attestation is the subject
      that its entry names, and who revokes it that subject or its attestor. */
  lemma {:induction false} LogIsEntitled(messages: seq<Message>, requireDkim: bool)
    ensures AllNamed(Run(messages, requireDkim)) && AllEntitled(Run(messages, requireDkim).log)
  {
    if messages != [] {
      LogIsEntitled(messages[..|messages| - 1], requireDkim);
      HandleKeepsEntitled(Run(messages[..|messages| - 1], requireDkim), messages[|messages| - 1], requireDkim);
    }
  }

  // ----- every reachable state -----

  lemma {:induction false} RunKeeps(messages: seq<Message>, requireDkim: bool, id: string)
    ensures var v := ViewOf(Run(messages, requireDkim), id); Lived(v) && Edged(id, v)
  {
    if messages != [] {
      var t := Run(messages[..|messages| - 1], requireDkim);
      RunKeeps(messages[..|messages| - 1], requireDkim, id);
      HandleMoves(t, messages[|messages| - 1], requireDkim, id);
      MoveKeeps(id, ViewOf(t, id), ViewOf(Run(messages, requireDkim), id));
    }
  }

  /** In every reachable state the log entries of an ID form one of: nothing;
      attest; attest, confirm; attest, revoke; attest, confirm, revoke, and
      they tell its status. */
  lemma LogGrammar(messages: seq<Message>, requireDkim: bool, id: string)
    ensures var v := ViewOf(Run(messages, requireDkim), id);
            && (v.history == [] || v.history == [A] || v.history == [A, C] || v.history == [A, R] || v.history == [A, C, R])
            && (v.att.Some? <==> v.history != [])
            && (v.att.Some? ==> (v.att.value.status.Revoked? <==> v.history[|v.history| - 1] == R))
            && (v.att.Some? && v.att.value.kind.Bilateral? ==> (v.att.value.status.Pending? <==> v.history == [A]))
  {
    RunKeeps(messages, requireDkim, id);
  }

  /** In every reachable state a confirmed bilateral attestation has exactly two
      mirrored edges of equal weight, a confirmed unilateral one exactly one,
      and a pending, revoked or unknown one none. */
  lemma EdgesMatchStatus(messages: seq<Message>, requireDkim: bool, id: string)
    ensures Edged(id, ViewOf(Run(messages, requireDkim), id))
  {
    RunKeeps(messages, requireDkim, id);
  }

  function RunFrom(t: Tables, messages: seq<Message>, requireDkim: bool): Tables {
    if messages == [] then t
    else Handle(RunFrom(t, messages[..|messages| - 1], requireDkim), messages[|messages| - 1], requireDkim)
  }

  /** Revoked is final: no later message changes the attestation, brings edges
      back or logs anything more under its ID. */
  lemma {:induction false} RevokedIsFinal(t: Tables, messages: seq<Message>, requireDkim: bool, id: string)
    requires id in t.atts && t.atts[id].status.Revoked?
    ensures ViewOf(RunFrom(t, messages, requireDkim), id) == ViewOf(t, id)
  {
    if messages != [] {
      RevokedIsFinal(t, messages[..|messages| - 1], requireDkim, id);
      HandleMoves(RunFrom(t, messages[..|messages| - 1], requireDkim), messages[|messages| - 1], requireDkim, id);
    }
  }
}
