/**
 The slot-to-connection table: binding moves a connection to one slot, and every lookup that goes from a
 connection back to its slot rests on no two slots sharing one. The hash order the loops walk in is a parameter.
 */
module ConnectionHub {
  import opened Basics

  type Bindings = map<string, string>

  /** A session's own record of its slots; `bound` is the one its input goes out as. */
  datatype Connection = Connection(attached: set<string>, bound: Option<string>)

  function AttachSlot(c: Connection, slot: string): Connection {
    if slot in c.attached then c else Connection(c.attached + {slot}, Some(slot))
  }

  function DetachSlot(c: Connection): Connection {
    if c.bound.Some? && c.bound.value in c.attached then Connection(c.attached - {c.bound.value}, None) else c
  }

  type Pool = map<string, Connection>

  function Attach(pool: Pool, id: string, slot: string): Pool {
    if id in pool then pool[id := AttachSlot(pool[id], slot)] else pool
  }

  function Detach(pool: Pool, id: string): Pool {
    if id in pool then pool[id := DetachSlot(pool[id])] else pool
  }

  /** `order` walks every key once. */
  ghost predicate Enumerates(order: seq<string>, b: Bindings) {
    && (forall slot :: slot in order <==> slot in b)
    && (forall i, j :: 0 <= i < j < |order| ==> order[i] != order[j])
  }

  /** The first other slot found on the connection; empty when none is. */
  function PriorSlot(b: Bindings, order: seq<string>, slot: string, id: string): string {
    if order == [] then ""
    else if order[0] in b && b[order[0]] == id && order[0] != slot then order[0]
    else PriorSlot(b, order[1..], slot, id)
  }

  function AfterBind(b: Bindings, order: seq<string>, slot: string, id: string): Bindings {
    var prior := PriorSlot(b, order, slot, id);
    (if prior == "" then b else b - {prior})[slot := id]
  }

  function PoolAfterBind(b: Bindings, pool: Pool, order: seq<string>, slot: string, id: string): Pool {
    var prior := PriorSlot(b, order, slot, id);
    Attach(if prior == "" then pool else Detach(pool, id), id, slot)
  }

  /** The slot a walk of the table finds on the connection. */
  function FirstBound(b: Bindings, order: seq<string>, id: string): Option<string> {
    if order == [] then None
    else if order[0] in b && b[order[0]] == id then Some(order[0])
    else FirstBound(b, order[1..], id)
  }

  /** The part of a screen row this model keeps. */
  datatype Summary = Summary(id: string, boundSlot: Option<string>)

  function Summaries(b: Bindings, order: seq<string>, ids: seq<string>, usable: set<string>): seq<Summary> {
    if ids == [] then []
    else if ids[0] in usable then
      [Summary(ids[0], FirstBound(b, order, ids[0]))] + Summaries(b, order, ids[1..], usable)
    else Summaries(b, order, ids[1..], usable)
  }

  function SummaryOf(summaries: seq<Summary>, id: string): Option<Summary> {
    if summaries == [] then None
    else if summaries[0].id == id then Some(summaries[0])
    else SummaryOf(summaries[1..], id)
  }

  function BoundConnection(b: Bindings, summaries: seq<Summary>, slot: string): Option<Summary> {
    var id := if slot in b then b[slot] else "";
    if id == "" then None else SummaryOf(summaries, id)
  }

  class ConnectionHub {
    var bindings: Bindings
    var pool: Pool
    var summaries: seq<Summary>

    constructor (pool: Pool)
      ensures bindings == map[] && this.pool == pool && summaries == []
    {
      bindings, this.pool, summaries := map[], pool, [];
    }

    method Bind(slot: string, id: string, order: seq<string>)
      requires Enumerates(order, bindings)
      modifies this`bindings, this`pool
      ensures bindings == AfterBind(old(bindings), order, slot, id)
      ensures pool == PoolAfterBind(old(bindings), old(pool), order, slot, id)
    {
      var current, prior, i := bindings, "", 0;
      assert order[0..] == order;
      while i < |order|
        invariant 0 <= i <= |order| && prior == ""
        invariant PriorSlot(current, order, slot, id) == PriorSlot(current, order[i..], slot, id)
      {
        assert order[i..][1..] == order[i + 1..];
        if current[order[i]] == id && order[i] != slot {
          prior := order[i];
          break;
        }
        i := i + 1;
      }
      if prior != "" {
        current := current - {prior};
        if id in pool { pool := pool[id := DetachSlot(pool[id])]; }
      }
      current := current[slot := id];
      bindings := current;
      if id in pool { pool := pool[id := AttachSlot(pool[id], slot)]; }
    }

    method Unbind(slot: string)
      modifies this`bindings, this`pool
      ensures bindings == old(bindings) - {slot}
      ensures pool == if slot in old(bindings) then Detach(old(pool), old(bindings)[slot]) else old(pool)
    {
      if slot !in bindings { return; }
      var id := bindings[slot];
      bindings := bindings - {slot};
      if id in pool { pool := pool[id := DetachSlot(pool[id])]; }
    }

    method BoundSlotFor(id: string, order: seq<string>) returns (slot: Option<string>)
      requires Enumerates(order, bindings)
      ensures slot == FirstBound(bindings, order, id)
    {
      var i := 0;
      assert order[0..] == order;
      while i < |order|
        invariant 0 <= i <= |order|
        invariant FirstBound(bindings, order, id) == FirstBound(bindings, order[i..], id)
      {
        assert order[i..][1..] == order[i + 1..];
        if bindings[order[i]] == id { return Some(order[i]); }
        i := i + 1;
      }
      return None;
    }

    /** The rows before sorting, for ids whose server record is usable. */
    method Rebuild(ids: seq<string>, usable: set<string>, order: seq<string>)
      requires Enumerates(order, bindings)
      modifies this`summaries
      ensures summaries == Summaries(bindings, order, ids, usable)
    {
      summaries := [];
      var i := 0;
      assert ids[0..] == ids;
      while i < |ids|
        invariant 0 <= i <= |ids|
        invariant summaries + Summaries(bindings, order, ids[i..], usable) == Summaries(bindings, order, ids, usable)
      {
        assert ids[i..][1..] == ids[i + 1..];
        if ids[i] in usable {
          var slot := BoundSlotFor(ids[i], order);
          summaries := summaries + [Summary(ids[i], slot)];
        }
        i := i + 1;
      }
    }
  }

  // ---- injectivity ----

  ghost predicate Injective(b: Bindings) {
    forall s, t :: s in b && t in b && s != t ==> b[s] != b[t]
  }

  /** What binding is for: the connection leaves every slot it was on and goes to this one. */
  function Moved(b: Bindings, slot: string, id: string): Bindings {
    (map s | s in b && b[s] != id :: b[s])[slot := id]
  }

  lemma {:induction false} PriorSlotFinds(b: Bindings, order: seq<string>, slot: string, id: string, holder: string)
    requires Injective(b) && forall s :: s in order ==> s in b
    requires holder in order && b[holder] == id && holder != slot
    ensures PriorSlot(b, order, slot, id) == holder
  {
    if order[0] != holder { PriorSlotFinds(b, order[1..], slot, id, holder); }
  }

  lemma {:induction false} PriorSlotNone(b: Bindings, order: seq<string>, slot: string, id: string)
    requires forall s :: s in order ==> s in b && (b[s] == id ==> s == slot)
    ensures PriorSlot(b, order, slot, id) == ""
  {
    if order != [] { PriorSlotNone(b, order[1..], slot, id); }
  }

  /** The binding the loop overlooks: the connection sits on a slot with the empty id, and another slot takes it. */
  predicate Overlooks(b: Bindings, slot: string, id: string) {
    "" in b && b[""] == id && slot != ""
  }

  /** From an injective table a bind moves the connection, whatever the hash order, unless it overlooks its slot. */
  lemma BindMoves(b: Bindings, order: seq<string>, slot: string, id: string)
    requires Injective(b) && Enumerates(order, b)
    ensures AfterBind(b, order, slot, id) ==
            if Overlooks(b, slot, id) then b[slot := id] else Moved(b, slot, id)
  {
    if holder :| holder in b && b[holder] == id && holder != slot {
      PriorSlotFinds(b, order, slot, id, holder);
    } else {
      PriorSlotNone(b, order, slot, id);
    }
  }

  lemma MovedIsInjective(b: Bindings, slot: string, id: string)
    requires Injective(b)
    ensures Injective(Moved(b, slot, id))
  {
  }

  /** A bind keeps the table injective exactly when it does not overlook the connection's slot. */
  lemma BindInjectiveIff(b: Bindings, order: seq<string>, slot: string, id: string)
    requires Injective(b) && Enumerates(order, b)
    ensures Injective(AfterBind(b, order, slot, id)) <==> !Overlooks(b, slot, id)
  {
    BindMoves(b, order, slot, id);
    MovedIsInjective(b, slot, id);
    if Overlooks(b, slot, id) {
      assert b[slot := id][""] == b[slot := id][slot];
    }
  }

  /** The empty slot id breaks injectivity: two binds leave one connection on two slots. */
  lemma EmptySlotKeepsItsBinding(slot: string, id: string)
    requires slot != ""
    ensures var b := AfterBind(AfterBind(map[], [], "", id), [""], slot, id);
            "" in b && slot in b && b[""] == b[slot] == id
  {
  }

  // ---- runs ----

  datatype Op = Bind(slot: string, id: string, order: seq<string>) | Unbind(slot: string)

  function Apply(b: Bindings, op: Op): Bindings {
    match op
    case Bind(slot, id, order) => AfterBind(b, order, slot, id)
    case Unbind(slot) => b - {slot}
  }

  function Run(ops: seq<Op>): Bindings {
    if ops == [] then map[] else Apply(Run(ops[..|ops| - 1]), ops[|ops| - 1])
  }

  /** Each bind walks the table of its moment. */
  ghost predicate Plays(ops: seq<Op>) {
    ops == [] ||
      var (rest, op) := (ops[..|ops| - 1], ops[|ops| - 1]);
      Plays(rest) && (op.Bind? ==> Enumerates(op.order, Run(rest)))
  }

  predicate NeverOverlooks(ops: seq<Op>) {
    ops == [] ||
      var (rest, op) := (ops[..|ops| - 1], ops[|ops| - 1]);
      NeverOverlooks(rest) && (op.Bind? ==> !Overlooks(Run(rest), op.slot, op.id))
  }

  /** The table is injective after every step. */
  ghost predicate AlwaysInjective(ops: seq<Op>) {
    Injective(Run(ops)) && (ops == [] || AlwaysInjective(ops[..|ops| - 1]))
  }

  /** The run with no hash order in it. */
  function Replay(ops: seq<Op>): Bindings {
    if ops == [] then map[]
    else
      var (rest, op) := (ops[..|ops| - 1], ops[|ops| - 1]);
      if op.Bind? then Moved(Replay(rest), op.slot, op.id) else Replay(rest) - {op.slot}
  }

  /** A run keeps the table injective throughout exactly when no bind of it overlooks a slot; its hash orders
      then do not matter. */
  lemma {:induction false} RunsStayInjective(ops: seq<Op>)
    requires Plays(ops)
    ensures AlwaysInjective(ops) <==> NeverOverlooks(ops)
    ensures NeverOverlooks(ops) ==> Injective(Run(ops)) && Run(ops) == Replay(ops)
  {
    if ops != [] {
      var n := |ops| - 1;
      RunsStayInjective(ops[..n]);
      if ops[n].Bind? && Injective(Run(ops[..n])) {
        BindMoves(Run(ops[..n]), ops[n].order, ops[n].slot, ops[n].id);
        BindInjectiveIff(Run(ops[..n]), ops[n].order, ops[n].slot, ops[n].id);
      }
    }
  }

  /** A run whose slots all have names overlooks none. */
  lemma {:induction false} NamedSlotsAreSafe(ops: seq<Op>)
    requires forall k :: 0 <= k < |ops| && ops[k].Bind? ==> ops[k].slot != ""
    ensures NeverOverlooks(ops) && "" !in Run(ops)
  {
    if ops != [] { NamedSlotsAreSafe(ops[..|ops| - 1]); }
  }

  /** Does this op take the connection `id` away from wherever it was? */
  predicate Takes(op: Op, id: string) {
    op.Bind? && op.id == id
  }

  /** A connection is on the slot of its last bind, if that slot was not bound or unbound since; else on none. */
  function LastSlot(ops: seq<Op>, id: string): Option<string> {
    if ops == [] then None
    else
      var (rest, op) := (ops[..|ops| - 1], ops[|ops| - 1]);
      if Takes(op, id) then Some(op.slot)
      else if LastSlot(rest, id) == Some(op.slot) then None
      else LastSlot(rest, id)
  }

  /** After every run, the slot bound to a connection is the one its own history of binds gives. */
  lemma {:induction false} BoundByLastBind(ops: seq<Op>, slot: string, id: string)
    requires Plays(ops) && NeverOverlooks(ops)
    ensures slot in Run(ops) && Run(ops)[slot] == id <==> LastSlot(ops, id) == Some(slot)
  {
    if ops != [] {
      var n := |ops| - 1;
      BoundByLastBind(ops[..n], slot, id);
      RunsStayInjective(ops[..n]);
      RunsStayInjective(ops);
    }
  }

  // ---- lookups from a connection to its slot ----

  lemma {:induction false} FirstBoundFinds(b: Bindings, order: seq<string>, id: string, slot: string)
    requires Injective(b) && forall s :: s in order ==> s in b
    ensures FirstBound(b, order, id) == Some(slot) <==> slot in order && b[slot] == id
  {
    if order != [] { FirstBoundFinds(b, order[1..], id, slot); }
  }

  /** The slot a lookup finds is the only one bound to the connection, whatever the hash order. */
  lemma BoundSlotIsUnique(b: Bindings, order: seq<string>, id: string, slot: string)
    requires Injective(b) && Enumerates(order, b)
    ensures FirstBound(b, order, id) == Some(slot) <==> slot in b && b[slot] == id
  {
    FirstBoundFinds(b, order, id, slot);
  }

  lemma {:induction false} SummaryFound(b: Bindings, order: seq<string>, ids: seq<string>, usable: set<string>,
      id: string)
    ensures SummaryOf(Summaries(b, order, ids, usable), id) ==
            if id in ids && id in usable then Some(Summary(id, FirstBound(b, order, id))) else None
  {
    if ids != [] {
      SummaryFound(b, order, ids[1..], usable, id);
      var row, rest := Summary(ids[0], FirstBound(b, order, ids[0])), Summaries(b, order, ids[1..], usable);
      assert ([row] + rest)[1..] == rest;
    }
  }

  /** Going from a slot to its connection's row and back returns the slot, whenever that row is on the screen. */
  lemma BoundConnectionRoundTrip(b: Bindings, order: seq<string>, ids: seq<string>, usable: set<string>, slot: string)
    requires Injective(b) && Enumerates(order, b)
    ensures var row := BoundConnection(b, Summaries(b, order, ids, usable), slot);
            row == if slot in b && b[slot] != "" && b[slot] in ids && b[slot] in usable
                   then Some(Summary(b[slot], Some(slot))) else None
  {
    if slot in b {
      SummaryFound(b, order, ids, usable, b[slot]);
      BoundSlotIsUnique(b, order, b[slot], slot);
    }
  }

  // ---- the sessions' own records ----

  /** The session holds exactly the slots the table binds to it. */
  ghost predicate Holds(b: Bindings, id: string, c: Connection) {
    && (forall slot :: slot in c.attached <==> slot in b && b[slot] == id)
    && (c.attached != {} ==> c.bound.Some? && c.bound.value in c.attached)
  }

  ghost predicate Agrees(b: Bindings, pool: Pool) {
    forall id :: id in pool ==> Holds(b, id, pool[id])
  }

  lemma BoundSessionHolds(b: Bindings, c: Connection, order: seq<string>, slot: string, id: string)
    requires Injective(b) && Enumerates(order, b) && Holds(b, id, c)
    ensures var prior := PriorSlot(b, order, slot, id);
            Holds(AfterBind(b, order, slot, id), id, AttachSlot(if prior == "" then c else DetachSlot(c), slot))
  {
    if holder :| holder in b && b[holder] == id && holder != slot {
      PriorSlotFinds(b, order, slot, id, holder);
      assert c.attached == {holder};
    } else {
      PriorSlotNone(b, order, slot, id);
      assert c.attached <= {slot};
    }
  }

  lemma OtherSessionHoldsIff(b: Bindings, c: Connection, slot: string, id: string, other: string)
    requires Holds(b, other, c) && other != id
    ensures Holds(Moved(b, slot, id), other, c) <==> !(slot in b && b[slot] == other)
    ensures Holds(b[slot := id], other, c) <==> !(slot in b && b[slot] == other)
  {
  }

  /** Rebinding a slot leaves its old session attached to it: agreement survives a bind exactly when there is none. */
  lemma BindAgreesIff(b: Bindings, pool: Pool, order: seq<string>, slot: string, id: string)
    requires Injective(b) && Enumerates(order, b) && Agrees(b, pool)
    ensures Agrees(AfterBind(b, order, slot, id), PoolAfterBind(b, pool, order, slot, id))
            <==> !(slot in b && b[slot] != id && b[slot] in pool)
  {
    BindMoves(b, order, slot, id);
    hide AfterBind, Moved, Holds, Injective, Enumerates;
    var pool' := PoolAfterBind(b, pool, order, slot, id);
    assert pool'.Keys == pool.Keys;
    forall other | other in pool
      ensures Holds(AfterBind(b, order, slot, id), other, pool'[other])
              <==> other == id || !(slot in b && b[slot] == other)
    {
      if other == id {
        BoundSessionHolds(b, pool[id], order, slot, id);
      } else {
        OtherSessionHoldsIff(b, pool[other], slot, id, other);
      }
    }
  }

  lemma UnbindAgrees(b: Bindings, pool: Pool, slot: string)
    requires Injective(b) && Agrees(b, pool)
    ensures Agrees(b - {slot}, if slot in b then Detach(pool, b[slot]) else pool)
  {
  }

  // ---- the sessions' own records over runs ----

  function SessionsAfter(b: Bindings, pool: Pool, op: Op): Pool {
    match op
    case Bind(slot, id, order) => PoolAfterBind(b, pool, order, slot, id)
    case Unbind(slot) => if slot in b then Detach(pool, b[slot]) else pool
  }

  /** The sessions after a run, beside the table `Run(ops)`. */
  function Sessions(pool: Pool, ops: seq<Op>): Pool {
    if ops == [] then pool
    else SessionsAfter(Run(ops[..|ops| - 1]), Sessions(pool, ops[..|ops| - 1]), ops[|ops| - 1])
  }

  /** Sessions and table agree after every step. */
  ghost predicate AlwaysAgrees(pool: Pool, ops: seq<Op>) {
    Agrees(Run(ops), Sessions(pool, ops)) && (ops == [] || AlwaysAgrees(pool, ops[..|ops| - 1]))
  }

  /** No bind takes a slot from another session of the pool. */
  predicate NeverTakesOver(pool: Pool, ops: seq<Op>) {
    ops == [] ||
      var (rest, op) := (ops[..|ops| - 1], ops[|ops| - 1]);
      var b := Run(rest);
      NeverTakesOver(pool, rest) && !(op.Bind? && op.slot in b && b[op.slot] != op.id && b[op.slot] in pool)
  }

  lemma {:induction false} SessionsStay(pool: Pool, ops: seq<Op>)
    ensures Sessions(pool, ops).Keys == pool.Keys
  {
    if ops != [] { SessionsStay(pool, ops[..|ops| - 1]); }
  }

  /** Throughout a run each session holds exactly the slots the table gives it, if and only if no bind takes a slot from
      another session. */
  lemma {:induction false} RunsAgreeIff(pool: Pool, ops: seq<Op>)
    requires Agrees(map[], pool) && Plays(ops) && NeverOverlooks(ops)
    ensures AlwaysAgrees(pool, ops) <==> NeverTakesOver(pool, ops)
  {
    if ops != [] {
      var n := |ops| - 1;
      var b, sessions, op := Run(ops[..n]), Sessions(pool, ops[..n]), ops[n];
      RunsAgreeIff(pool, ops[..n]);
      RunsStayInjective(ops[..n]);
      SessionsStay(pool, ops[..n]);
      if AlwaysAgrees(pool, ops[..n]) {
        if op.Bind? {
          BindAgreesIff(b, sessions, op.order, op.slot, op.id);
        } else {
          UnbindAgrees(b, sessions, op.slot);
        }
      }
      hide Agrees, AfterBind, PoolAfterBind;
    }
  }

  /** The slot of the session's last bind, unless it was unbound while still the session's. A slot another session has
      taken over since is still here. */
  function OwnSlot(ops: seq<Op>, id: string): Option<string> {
    if ops == [] then None
    else
      var (rest, op) := (ops[..|ops| - 1], ops[|ops| - 1]);
      if Takes(op, id) then Some(op.slot)
      else if op.Unbind? && LastSlot(rest, id) == Some(op.slot) then None
      else OwnSlot(rest, id)
  }

  /** The slots another session took over from this one before it was bound elsewhere. */
  function LeftBehind(ops: seq<Op>, id: string): set<string> {
    if ops == [] then {}
    else
      var (rest, op) := (ops[..|ops| - 1], ops[|ops| - 1]);
      var own := OwnSlot(rest, id);
      if Takes(op, id) && LastSlot(rest, id) == None && own.Some? && own != Some(op.slot)
      then LeftBehind(rest, id) + {own.value}
      else LeftBehind(rest, id)
  }

  /** The session is never bound again to a slot it left behind. */
  predicate NeverReturns(ops: seq<Op>, id: string) {
    ops == [] ||
      var (rest, op) := (ops[..|ops| - 1], ops[|ops| - 1]);
      NeverReturns(rest, id) && !(Takes(op, id) && op.slot in LeftBehind(rest, id))
  }

  /** A session's record as its history gives it. */
  function History(left: set<string>, own: Option<string>): Connection {
    Connection(if own.Some? then left + {own.value} else left, own)
  }

  lemma {:induction false} OwnSlotIsLast(ops: seq<Op>, id: string)
    ensures LastSlot(ops, id).Some? ==> OwnSlot(ops, id) == LastSlot(ops, id)
  {
    if ops != [] { OwnSlotIsLast(ops[..|ops| - 1], id); }
  }

  /** The slot a bind finds for the session elsewhere is the one its history gives. */
  lemma PriorIsLast(ops: seq<Op>, order: seq<string>, slot: string, id: string)
    requires Plays(ops) && NeverOverlooks(ops) && Enumerates(order, Run(ops)) && !Overlooks(Run(ops), slot, id)
    ensures var last := LastSlot(ops, id);
            && (last.Some? && last.value != slot ==>
                  last.value != "" && PriorSlot(Run(ops), order, slot, id) == last.value)
            && (last.None? || last.value == slot ==> PriorSlot(Run(ops), order, slot, id) == "")
  {
    var b, last := Run(ops), LastSlot(ops, id);
    RunsStayInjective(ops);
    if last.Some? { BoundByLastBind(ops, last.value, id); }
    if last.Some? && last.value != slot {
      PriorSlotFinds(b, order, slot, id, last.value);
    } else {
      forall s | s in order ensures s in b && (b[s] == id ==> s == slot) { BoundByLastBind(ops, s, id); }
      PriorSlotNone(b, order, slot, id);
    }
  }

  lemma SessionStep(pool: Pool, rest: seq<Op>, op: Op, id: string)
    requires Plays(rest + [op]) && NeverOverlooks(rest + [op]) && id in Sessions(pool, rest)
    requires Sessions(pool, rest)[id] == History(LeftBehind(rest, id), OwnSlot(rest, id))
    requires OwnSlot(rest, id).Some? ==> OwnSlot(rest, id).value !in LeftBehind(rest, id)
    ensures var c := SessionsAfter(Run(rest), Sessions(pool, rest), op);
            && id in c
            && (if Takes(op, id) && op.slot in LeftBehind(rest, id) then c[id].bound != Some(op.slot)
                else c[id] == History(LeftBehind(rest + [op], id), OwnSlot(rest + [op], id)))
  {
    var b, ops := Run(rest), rest + [op];
    assert ops[..|rest|] == rest;
    OwnSlotIsLast(rest, id);
    hide Plays, NeverOverlooks, Run, Sessions;
    if Takes(op, id) {
      PriorIsLast(rest, op.order, op.slot, id);
    } else if op.Unbind? {
      BoundByLastBind(rest, op.slot, id);
    }
  }

  /** The slot the table binds to the session is the one the session's input goes out as. */
  ghost predicate Follows(pool: Pool, ops: seq<Op>, id: string) {
    id in Sessions(pool, ops) &&
      forall slot :: slot in Run(ops) && Run(ops)[slot] == id ==> Sessions(pool, ops)[id].bound == Some(slot)
  }

  ghost predicate AlwaysFollows(pool: Pool, ops: seq<Op>, id: string) {
    Follows(pool, ops, id) && (ops == [] || AlwaysFollows(pool, ops[..|ops| - 1], id))
  }

  /** A session that never goes back to a slot it left behind has, after every run, its last slot and the ones it left
      behind, and its input goes out as the last. */
  lemma {:induction false} SessionIsItsHistory(pool: Pool, ops: seq<Op>, id: string)
    requires id in pool && pool[id] == Connection({}, None) && Plays(ops) && NeverOverlooks(ops)
    requires NeverReturns(ops, id)
    ensures id in Sessions(pool, ops)
    ensures Sessions(pool, ops)[id] == History(LeftBehind(ops, id), OwnSlot(ops, id))
    ensures OwnSlot(ops, id).Some? ==> OwnSlot(ops, id).value !in LeftBehind(ops, id)
  {
    if ops != [] {
      var rest, op := ops[..|ops| - 1], ops[|ops| - 1];
      assert rest + [op] == ops;
      SessionIsItsHistory(pool, rest, id);
      SessionStep(pool, rest, op, id);
    }
  }

  lemma FollowsItsHistory(pool: Pool, ops: seq<Op>, id: string)
    requires Plays(ops) && NeverOverlooks(ops) && id in Sessions(pool, ops)
    requires Sessions(pool, ops)[id].bound == OwnSlot(ops, id)
    ensures Follows(pool, ops, id)
  {
    OwnSlotIsLast(ops, id);
    forall slot | slot in Run(ops) && Run(ops)[slot] == id ensures Sessions(pool, ops)[id].bound == Some(slot) {
      BoundByLastBind(ops, slot, id);
    }
  }

  /** Throughout a run a session's input goes out as the slot the table binds to it, if and only if it is never bound
      again to a slot that another session took over and that it then left for another. */
  lemma {:induction false} SessionFollowsIff(pool: Pool, ops: seq<Op>, id: string)
    requires id in pool && pool[id] == Connection({}, None) && Plays(ops) && NeverOverlooks(ops)
    ensures AlwaysFollows(pool, ops, id) <==> NeverReturns(ops, id)
  {
    if NeverReturns(ops, id) {
      SessionIsItsHistory(pool, ops, id);
      FollowsItsHistory(pool, ops, id);
    }
    if ops != [] {
      var rest, op := ops[..|ops| - 1], ops[|ops| - 1];
      assert rest + [op] == ops;
      SessionFollowsIff(pool, rest, id);
      if NeverReturns(rest, id) && !NeverReturns(ops, id) {
        SessionIsItsHistory(pool, rest, id);
        SessionStep(pool, rest, op, id);
        assert op.slot in Run(ops) && Run(ops)[op.slot] == id;
      }
    }
  }

  lemma OneMoreOp(pool: Pool, rest: seq<Op>, op: Op)
    ensures Run(rest + [op]) == Apply(Run(rest), op)
    ensures Sessions(pool, rest + [op]) == SessionsAfter(Run(rest), Sessions(pool, rest), op)
    ensures Plays(rest + [op]) <==> Plays(rest) && (op.Bind? ==> Enumerates(op.order, Run(rest)))
  {
    assert (rest + [op])[..|rest|] == rest;
  }

  lemma TakenOverRun(pool: Pool, s: string, t: string, id: string, other: string)
    requires s != "" && s != t && id != other && id in pool && pool[id] == Connection({}, None)
    ensures var ops := [Bind(s, id, [])] + [Bind(s, other, [s])] + [Bind(t, id, [s])];
            && Plays(ops) && Run(ops) == map[s := other, t := id]
            && id in Sessions(pool, ops) && Sessions(pool, ops)[id] == Connection({s, t}, Some(t))
  {
    var o1 := [Bind(s, id, [])];
    var o2 := o1 + [Bind(s, other, [s])];
    assert o1 == [] + o1;
    OneMoreOp(pool, [], o1[0]);
    OneMoreOp(pool, o1, Bind(s, other, [s]));
    OneMoreOp(pool, o2, Bind(t, id, [s]));
    hide Run, Sessions, Plays;
    assert Run([]) == map[] && Sessions(pool, []) == pool && Plays([]);
    assert Run(o1) == map[s := id] && Sessions(pool, o1)[id] == Connection({s}, Some(s));
    assert [s][1..] == [] && PriorSlot(map[s := id], [s], s, other) == PriorSlot(map[s := other], [s], t, id) == "";
    assert Run(o2) == map[s := id][s := other] == map[s := other];
    assert Sessions(pool, o2)[id] == Connection({s}, Some(s));
    assert map[s := other][t := id] == map[s := other, t := id] && {s} + {t} == {s, t};
  }

  /** Four binds that end with the table giving a slot to a session whose input goes nowhere. */
  lemma ReturningLosesInput(pool: Pool, s: string, t: string, id: string, other: string)
    requires s != "" && t != "" && s != t && id != other && id in pool && pool[id] == Connection({}, None)
    ensures var ops := [Bind(s, id, [])] + [Bind(s, other, [s])] + [Bind(t, id, [s])] + [Bind(s, id, [s, t])];
            && Plays(ops) && Run(ops) == map[s := id]
            && id in Sessions(pool, ops) && Sessions(pool, ops)[id].bound == None
  {
    TakenOverRun(pool, s, t, id, other);
    OneMoreOp(pool, [Bind(s, id, [])] + [Bind(s, other, [s])] + [Bind(t, id, [s])], Bind(s, id, [s, t]));
    hide Run, Sessions, Plays;
    var b := map[s := other, t := id];
    assert [s, t][1..] == [t] && PriorSlot(b, [s, t], s, id) == PriorSlot(b, [t], s, id) == t;
    assert (b - {t})[s := id] == map[s := id];
  }
}
