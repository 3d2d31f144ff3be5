/**
 The two allocators of grace-epoch participants: the bitmap that leases one to each mic sender, any number
 of threads creating and dropping senders at once, and the grow-only table that gives each session its own.
 */
module Participants {
  import opened Basics
  import opened Bits

  // ---- mic senders ----

  const MIC_SENDERS: nat := 64

  /** A participant and the sender copies that share it. */
  datatype Lease = Lease(participant: nat, copies: nat)

  /** A thread inside `micSenderForSlot`: at rest, about to try its exchange, or refused. */
  datatype Creator = Resting | Loaded(expected: bv64) | Refused

  datatype State = State(taken: bv64, creators: seq<Creator>, leases: map<nat, Lease>, next: nat)

  function Start(threads: nat): State {
    State(0, seq(threads, _ => Resting), map[], 0)
  }

  datatype Move = Load(c: nat) | TryTake(c: nat, spurious: bool) | Rest(c: nat) | CopySender(l: nat) | DropCopy(l: nat)

  /** A failed weak exchange loads the word again; a full word refuses the sender. */
  function TakeStep(s: State, c: nat, spurious: bool): State
    requires c < |s.creators| && s.creators[c].Loaded?
  {
    var expected := s.creators[c].expected;
    if expected == FULL then s.(creators := s.creators[c := Refused])
    else if spurious || s.taken != expected then s.(creators := s.creators[c := Loaded(s.taken)])
    else
      LowestClear(expected);
      var p := CountrOne(expected);
      State(With(expected, p), s.creators[c := Resting], s.leases[s.next := Lease(p, 1)], s.next + 1)
  }

  /** A sender's last copy gives its participant back. */
  function DropStep(s: State, l: nat): State
    requires l in s.leases
  {
    var lease := s.leases[l];
    if lease.copies > 1 || lease.participant >= MIC_SENDERS then
      s.(leases := s.leases[l := lease.(copies := if lease.copies > 0 then lease.copies - 1 else 0)])
    else s.(taken := Without(s.taken, lease.participant), leases := s.leases - {l})
  }

  function Next(s: State, m: Move): State {
    match m
    case Load(c) =>
      if c < |s.creators| && s.creators[c].Resting? then s.(creators := s.creators[c := Loaded(s.taken)]) else s
    case TryTake(c, spurious) => if c < |s.creators| && s.creators[c].Loaded? then TakeStep(s, c, spurious) else s
    case Rest(c) => if c < |s.creators| && s.creators[c].Refused? then s.(creators := s.creators[c := Resting]) else s
    case CopySender(l) =>
      if l in s.leases then s.(leases := s.leases[l := s.leases[l].(copies := s.leases[l].copies + 1)]) else s
    case DropCopy(l) => if l in s.leases then DropStep(s, l) else s
  }

  function Run(s: State, moves: seq<Move>): State
    decreases |moves|
  {
    if moves == [] then s else Next(Run(s, moves[..|moves| - 1]), moves[|moves| - 1])
  }

  /** The participants of the leases alive. */
  function Held(s: State): set<nat> {
    set l | l in s.leases :: s.leases[l].participant
  }

  /** No two live leases share a participant, and the word's set bits are exactly the participants held. */
  ghost predicate Exclusive(s: State) {
    && (forall l, m :: l in s.leases && m in s.leases && l != m ==> s.leases[l].participant != s.leases[m].participant)
    && Held(s) == Members(s.taken)
    && (forall l :: l in s.leases ==> l < s.next && s.leases[l].copies > 0 && s.leases[l].participant < MIC_SENDERS)
  }

  lemma TakeKeepsExclusive(s: State, c: nat, spurious: bool)
    requires Exclusive(s) && c < |s.creators| && s.creators[c].Loaded?
    ensures Exclusive(TakeStep(s, c, spurious))
  {
    hide Members, CountrOne, With;
    var s' := TakeStep(s, c, spurious);
    if s'.next != s.next {
      LowestClear(s.taken);
      var p := CountrOne(s.taken);
      MembersUpdate(s.taken, p);
      assert Held(s') == Held(s) + {p} by {
        assert s'.leases[s.next].participant == p;
        assert forall l :: l in s.leases ==> s'.leases[l] == s.leases[l];
      }
    }
  }

  lemma DropKeepsExclusive(s: State, l: nat)
    requires Exclusive(s) && l in s.leases
    ensures Exclusive(DropStep(s, l))
  {
    hide Members, Without;
    var s', p := DropStep(s, l), s.leases[l].participant;
    if l in s'.leases {
      assert Held(s') == Held(s) by {
        assert s'.leases[l].participant == p;
        assert forall m :: m in s.leases && m != l ==> s'.leases[m] == s.leases[m];
      }
    } else {
      MembersUpdate(s.taken, p);
      assert Held(s') == Held(s) - {p} by {
        assert forall m :: m in s'.leases <==> m in s.leases && m != l;
      }
    }
  }

  lemma CopyKeepsExclusive(s: State, l: nat)
    requires Exclusive(s) && l in s.leases
    ensures Exclusive(Next(s, CopySender(l)))
  {
    hide Members;
    var s' := Next(s, CopySender(l));
    assert Held(s') == Held(s) by {
      assert s'.leases[l].participant == s.leases[l].participant;
      assert forall m :: m in s.leases && m != l ==> s'.leases[m] == s.leases[m];
    }
  }

  lemma NextKeepsExclusive(s: State, move: Move)
    requires Exclusive(s)
    ensures Exclusive(Next(s, move))
  {
    hide Members, TakeStep, DropStep;
    match move {
      case TryTake(c, spurious) => if c < |s.creators| && s.creators[c].Loaded? { TakeKeepsExclusive(s, c, spurious); }
      case CopySender(l) => if l in s.leases { CopyKeepsExclusive(s, l); }
      case DropCopy(l) => if l in s.leases { DropKeepsExclusive(s, l); }
      case _ =>
    }
  }

  lemma {:induction false} RunKeepsExclusive(s: State, moves: seq<Move>)
    requires Exclusive(s)
    ensures Exclusive(Run(s, moves))
    decreases |moves|
  {
    hide Exclusive, Next;
    if moves != [] {
      RunKeepsExclusive(s, moves[..|moves| - 1]);
      NextKeepsExclusive(Run(s, moves[..|moves| - 1]), moves[|moves| - 1]);
    }
  }

  /** In every interleaving of creations, copies and drops the leases are exclusive. */
  lemma LeasesAreExclusive(threads: nat, moves: seq<Move>)
    ensures Exclusive(Run(Start(threads), moves))
  {
    MembersOfExtremes();
    RunKeepsExclusive(Start(threads), moves);
  }

  ghost predicate AllHeld(s: State) {
    forall k: nat :: k < MIC_SENDERS ==> k in Held(s)
  }

  predicate SawFull(creator: Creator) {
    creator == Refused || creator == Loaded(FULL)
  }

  ghost predicate SawFullAt(threads: nat, moves: seq<Move>, c: nat, i: nat)
    requires i <= |moves|
  {
    var s := Run(Start(threads), moves[..i]);
    c < |s.creators| && SawFull(s.creators[c])
  }

  /** From just after the first `k` moves on, the thread has had the full word in hand. */
  ghost predicate SawFullSince(threads: nat, moves: seq<Move>, c: nat, k: nat) {
    forall i: nat :: k < i <= |moves| ==> SawFullAt(threads, moves, c, i)
  }

  /** A thread comes to see a full word only at a moment when every participant is held. */
  lemma SeesFullOnlyWhenFull(s: State, m: Move, c: nat)
    requires Exclusive(s) && c < |s.creators| && !SawFull(s.creators[c])
    requires c < |Next(s, m).creators| && SawFull(Next(s, m).creators[c])
    ensures AllHeld(s)
  {
    hide Members;
    MembersOfExtremes();
  }

  lemma CreatorsStay(threads: nat, moves: seq<Move>)
    ensures |Run(Start(threads), moves).creators| == threads
    decreases |moves|
  {
    if moves != [] { CreatorsStay(threads, moves[..|moves| - 1]); }
  }

  /** A sender is refused only if every participant was held at a moment of its own call: the moment before the step
      that showed it the full word, since when it has been on its way to the refusal. */
  lemma {:induction false} RefusedOnlyWhenFull(threads: nat, moves: seq<Move>, c: nat)
    requires c < |Run(Start(threads), moves).creators| && SawFull(Run(Start(threads), moves).creators[c])
    ensures exists k: nat ::
              k < |moves| && AllHeld(Run(Start(threads), moves[..k])) && SawFullSince(threads, moves, c, k)
    decreases |moves|
  {
    hide AllHeld, Exclusive, Next;
    if moves != [] {
      var n := |moves| - 1;
      CreatorsStay(threads, moves);
      CreatorsStay(threads, moves[..n]);
      assert moves[..|moves|] == moves;
      if SawFull(Run(Start(threads), moves[..n]).creators[c]) {
        RefusedOnlyWhenFull(threads, moves[..n], c);
        var k: nat :| k < n && AllHeld(Run(Start(threads), moves[..n][..k])) && SawFullSince(threads, moves[..n], c, k);
        assert moves[..n][..k] == moves[..k];
        forall i: nat | k < i <= |moves| ensures SawFullAt(threads, moves, c, i) {
          if i <= n {
            assert moves[..n][..i] == moves[..i];
            assert SawFullAt(threads, moves[..n], c, i);
          }
        }
      } else {
        LeasesAreExclusive(threads, moves[..n]);
        SeesFullOnlyWhenFull(Run(Start(threads), moves[..n]), moves[n], c);
        assert SawFullSince(threads, moves, c, n);
      }
    }
  }

  /** A sender that is granted gets the lowest participant nobody held. */
  lemma GrantedLowestFree(threads: nat, moves: seq<Move>, m: Move)
    requires var s := Run(Start(threads), moves); s.next in Next(s, m).leases
    ensures var s := Run(Start(threads), moves);
            var p := Next(s, m).leases[s.next].participant;
            p < MIC_SENDERS && p !in Held(s) && forall k: nat :: k < p ==> k in Held(s)
  {
    hide Run, Members, CountrOne;
    LeasesAreExclusive(threads, moves);
    LowestClear(Run(Start(threads), moves).taken);
  }

  /** A thread that loads the word and tries at once, without a spurious failure, gets a lease of its own, unless every
      participant is held, and then it is refused. */
  lemma TryingAtOnceDecides(threads: nat, moves: seq<Move>, c: nat)
    requires c < |Run(Start(threads), moves).creators| && Run(Start(threads), moves).creators[c].Resting?
    ensures var s := Run(Start(threads), moves);
            var s' := Next(Next(s, Load(c)), TryTake(c, false));
            && c < |s'.creators|
            && (if AllHeld(s) then s' == s.(creators := s.creators[c := Refused]) && Next(s', Rest(c)) == s
                else s.next in s'.leases && s'.leases[s.next].copies == 1 && s'.creators == s.creators
                     && s'.leases - {s.next} == s.leases)
  {
    var s := Run(Start(threads), moves);
    LeasesAreExclusive(threads, moves);
    MembersOfExtremes();
    FullIsAll(s.taken);
    hide Members, CountrOne, With, Run;
    assert s.next !in s.leases;
    assert AllHeld(s) <==> s.taken == FULL;
    assert s.creators[c := Loaded(s.taken)][c := Resting] == s.creators;
    assert s.creators[c := Loaded(s.taken)][c := Refused] == s.creators[c := Refused];
    assert s.creators[c := Refused][c := Resting] == s.creators;
  }

  /** A thread whose exchange fails, spuriously or because the word has moved, is decided by its next try if nothing
      comes in between: it gets a lease, unless every participant is held. */
  lemma NextTryDecides(threads: nat, moves: seq<Move>, c: nat, spurious: bool)
    requires var s := Run(Start(threads), moves);
             c < |s.creators| && s.creators[c].Loaded? && s.creators[c].expected != FULL
             && (spurious || s.creators[c].expected != s.taken)
    ensures var s := Run(Start(threads), moves);
            var s' := Next(Next(s, TryTake(c, spurious)), TryTake(c, false));
            && c < |s'.creators|
            && (if AllHeld(s) then s'.creators[c] == Refused && s'.leases == s.leases
                else s.next in s'.leases && s'.leases[s.next].copies == 1 && s'.creators[c] == Resting)
  {
    var s := Run(Start(threads), moves);
    LeasesAreExclusive(threads, moves);
    FullIsAll(s.taken);
    hide Members, CountrOne, With, Run;
    assert AllHeld(s) <==> s.taken == FULL;
  }

  lemma FullIsAll(w: bv64)
    ensures w == FULL <==> forall k: nat :: k < MIC_SENDERS ==> k in Members(w)
  {
    hide CountrOne;
    LowestClear(w);
    MembersOfExtremes();
  }

  // ---- a sender's last copy gives the participant back ----

  /** How many copies of a sender are about: one when it is granted, one more for each copy, one less for each drop. */
  function Copies(threads: nat, moves: seq<Move>, l: nat): nat
    decreases |moves|
  {
    if moves == [] then 0
    else
      var (rest, move) := (moves[..|moves| - 1], moves[|moves| - 1]);
      var (s, n) := (Run(Start(threads), rest), Copies(threads, rest, l));
      if n == 0 then if l == s.next && Next(s, move).next > s.next then 1 else 0
      else if move == CopySender(l) then n + 1
      else if move == DropCopy(l) then n - 1
      else n
  }

  /** `n` copies of the sender are about. */
  ghost predicate HasCopies(s: State, l: nat, n: nat) {
    && (l in s.leases <==> n > 0)
    && (l in s.leases ==> s.leases[l].copies == n)
  }

  lemma MoveKeepsCopies(s: State, move: Move, l: nat, n: nat)
    requires Exclusive(s) && HasCopies(s, l, n)
    ensures HasCopies(Next(s, move), l,
                      if n == 0 then if l == s.next && Next(s, move).next > s.next then 1 else 0
                      else if move == CopySender(l) then n + 1
                      else if move == DropCopy(l) then n - 1
                      else n)
  {
    hide Members, CountrOne, With, Without, Held;
  }

  /** In every interleaving a lease is alive exactly while copies of its sender are about, and counts them. */
  lemma {:induction false} LeasesCountCopies(threads: nat, moves: seq<Move>, l: nat)
    ensures HasCopies(Run(Start(threads), moves), l, Copies(threads, moves, l))
    decreases |moves|
  {
    if moves != [] {
      var rest := moves[..|moves| - 1];
      LeasesCountCopies(threads, rest, l);
      LeasesAreExclusive(threads, rest);
      hide HasCopies, Exclusive, Next;
      MoveKeepsCopies(Run(Start(threads), rest), moves[|moves| - 1], l, Copies(threads, rest, l));
    }
  }

  /** Dropping a sender's last copy frees its participant and no other; dropping one of several frees none. */
  lemma LastDropFrees(threads: nat, moves: seq<Move>, l: nat)
    requires l in Run(Start(threads), moves).leases
    ensures var s := Run(Start(threads), moves);
            var s' := Next(s, DropCopy(l));
            if Copies(threads, moves, l) == 1
            then s'.leases == s.leases - {l} && Held(s') == Held(s) - {s.leases[l].participant}
            else l in s'.leases && Held(s') == Held(s)
  {
    var s := Run(Start(threads), moves);
    LeasesCountCopies(threads, moves, l);
    LeasesAreExclusive(threads, moves);
    hide Run, Copies, Members, Without;
    DropFrees(s, l);
  }

  lemma DropFrees(s: State, l: nat)
    requires Exclusive(s) && l in s.leases
    ensures var s' := Next(s, DropCopy(l));
            if s.leases[l].copies == 1
            then s'.leases == s.leases - {l} && Held(s') == Held(s) - {s.leases[l].participant}
            else l in s'.leases && Held(s') == Held(s)
  {
    hide Members, Without;
    var s', p := Next(s, DropCopy(l)), s.leases[l].participant;
    if l in s'.leases {
      assert s'.leases[l].participant == p;
      assert forall m :: m in s.leases && m != l ==> s'.leases[m] == s.leases[m];
    } else {
      assert forall m :: m in s'.leases <==> m in s.leases && m != l;
    }
  }

  // ---- sessions ----

  const DEVICE_PARTICIPANTS: nat := MAX_DEVICES
  const SESSION_PARTICIPANTS: nat := 64

  /** The participant a session gets when the table holds `known`. */
  function Answer(known: map<string, nat>, id: string): Option<nat> {
    if id in known then Some(known[id])
    else if |known| >= SESSION_PARTICIPANTS then None
    else Some(DEVICE_PARTICIPANTS + |known|)
  }

  function Installed(known: map<string, nat>, id: string): map<string, nat> {
    if id in known || |known| >= SESSION_PARTICIPANTS then known else known[id := DEVICE_PARTICIPANTS + |known|]
  }

  class SessionTable {
    var known: map<string, nat>

    constructor ()
      ensures known == map[]
    {
      known := map[];
    }

    /** `None` when the table is full: that session's handlers are not installed. */
    method InstallFeedbackHandlers(id: string) returns (participant: Option<nat>)
      modifies this
      ensures participant == Answer(old(known), id)
      ensures known == Installed(old(known), id)
    {
      if id in known {
        return Some(known[id]);
      }
      if |known| >= SESSION_PARTICIPANTS {
        return None;
      }
      participant := Some(DEVICE_PARTICIPANTS + |known|);
      known := known[id := participant.value];
    }
  }

  /** The table after a run of installs. */
  function AfterInstalls(ids: seq<string>): map<string, nat> {
    if ids == [] then map[] else Installed(AfterInstalls(ids[..|ids| - 1]), ids[|ids| - 1])
  }

  function Seen(ids: seq<string>): set<string> {
    set id | id in ids
  }

  ghost predicate Numbered(known: map<string, nat>) {
    && |known| <= SESSION_PARTICIPANTS
    && (forall id :: id in known ==> DEVICE_PARTICIPANTS <= known[id] < DEVICE_PARTICIPANTS + |known|)
    && (forall a, b :: a in known && b in known && a != b ==> known[a] != known[b])
  }

  lemma InstallKeepsNumbered(known: map<string, nat>, id: string)
    requires Numbered(known)
    ensures Numbered(Installed(known, id))
  {
    if id !in known {
      assert known[id := 0].Keys == known.Keys + {id};
      assert |known[id := DEVICE_PARTICIPANTS + |known|]| == |known| + 1;
    }
  }

  /** Over every run, no two sessions share a participant and none is a device's. */
  lemma {:induction false} SessionsAreExclusive(ids: seq<string>)
    ensures Numbered(AfterInstalls(ids))
  {
    if ids != [] {
      SessionsAreExclusive(ids[..|ids| - 1]);
      InstallKeepsNumbered(AfterInstalls(ids[..|ids| - 1]), ids[|ids| - 1]);
    }
  }

  lemma SeenGrows(ids: seq<string>, k: nat)
    requires k < |ids|
    ensures Seen(ids[..k + 1]) == Seen(ids[..k]) + {ids[k]}
  {
    assert ids[..k + 1] == ids[..k] + [ids[k]];
  }

  /** The table holds the ids seen, as long as it has room for them. */
  ghost predicate Tracks(known: map<string, nat>, seen: set<string>) {
    && known.Keys <= seen
    && (|seen| <= SESSION_PARTICIPANTS ==> known.Keys == seen)
    && (|seen| > SESSION_PARTICIPANTS ==> |known.Keys| == SESSION_PARTICIPANTS)
  }

  lemma InstallTracks(known: map<string, nat>, seen: set<string>, id: string)
    requires Tracks(known, seen)
    ensures Tracks(Installed(known, id), seen + {id})
  {
    assert |known| == |known.Keys|;
    if id in seen {
      assert seen + {id} == seen;
    } else {
      assert |seen + {id}| == |seen| + 1;
    }
  }

  lemma {:induction false} KnownAreSeen(ids: seq<string>)
    ensures Tracks(AfterInstalls(ids), Seen(ids))
  {
    if ids != [] {
      hide Tracks;
      var n := |ids| - 1;
      KnownAreSeen(ids[..n]);
      InstallTracks(AfterInstalls(ids[..n]), Seen(ids[..n]), ids[n]);
      SeenGrows(ids, n);
      assert ids[..n + 1] == ids;
    }
  }

  lemma {:induction false} InstallsStay(ids: seq<string>, k: nat, id: string)
    requires k <= |ids|
    ensures var then', now := AfterInstalls(ids[..k]), AfterInstalls(ids);
            && (id in then' ==> id in now && now[id] == then'[id])
            && (|then'| == SESSION_PARTICIPANTS ==> now == then')
  {
    if k < |ids| {
      var n := |ids| - 1;
      InstallsStay(ids[..n], k, id);
      assert ids[..n][..k] == ids[..k];
    } else {
      assert ids[..k] == ids;
    }
  }

  lemma NextInstalls(ids: seq<string>, k: nat)
    requires k < |ids|
    ensures AfterInstalls(ids[..k + 1]) == Installed(AfterInstalls(ids[..k]), ids[k])
  {
    assert ids[..k + 1][..k] == ids[..k];
  }

  /** A session's answer is fixed by the first time it asked: the number of different sessions that asked before. */
  lemma AnswerByFirstAsk(ids: seq<string>, first: nat, now: nat)
    requires first <= now < |ids| && ids[now] == ids[first] && ids[first] !in ids[..first]
    ensures var before := |Seen(ids[..first])|;
            Answer(AfterInstalls(ids[..now]), ids[now]) ==
            if before < SESSION_PARTICIPANTS then Some(DEVICE_PARTICIPANTS + before) else None
  {
    var id, prior := ids[first], AfterInstalls(ids[..first]);
    KnownAreSeen(ids[..first]);
    assert |prior| == |prior.Keys|;
    if first < now {
      NextInstalls(ids, first);
      InstallsStay(ids[..now], first + 1, id);
      assert ids[..now][..first + 1] == ids[..first + 1];
    }
  }
}
