/**
 The sequence lock: one writer, any number of readers, a generation whose parity tells whether a write is going on,
 and a value stored and loaded one atomic word at a time, each step of each thread interleaved with the others.
 */
module Seqlock {
  import opened Basics

  type Value = seq<uint64>

  datatype Writer = Idle | Open(value: Value, stored: nat)

  /** A reader at rest, between its two loads of the generation, or with its answer. */
  datatype Reader = Resting | Reading(before: nat, got: Value) | Answered(ok: bool, value: Value)

  /** `committed` is the history of completed writes, the initial value first. */
  datatype State = State(generation: nat, words: Value, writer: Writer, readers: seq<Reader>, committed: seq<Value>)

  function Start(initial: Value, readers: nat): State {
    State(0, initial, Idle, seq(readers, _ => Resting), [initial])
  }

  datatype Move =
    | BeginWrite(value: Value) | StoreWord | EndWrite
    | BeginRead(r: nat) | LoadWord(r: nat) | EndRead(r: nat)

  function WriterStep(s: State, move: Move): State {
    match (move, s.writer)
    case (BeginWrite(value), Idle) =>
      if |value| == |s.words| then s.(generation := s.generation + 1, writer := Open(value, 0)) else s
    case (StoreWord, Open(value, k)) =>
      if k < |value| && k < |s.words| then s.(words := s.words[k := value[k]], writer := Open(value, k + 1)) else s
    case (EndWrite, Open(value, k)) =>
      if k == |value| then s.(generation := s.generation + 1, writer := Idle, committed := s.committed + [value]) else s
    case _ => s
  }

  function ReaderStep(reader: Reader, move: Move, generation: nat, words: Value): Reader {
    match (move, reader)
    case (BeginRead(_), Resting) => if generation % 2 != 0 then Answered(false, []) else Reading(generation, [])
    case (BeginRead(_), Answered(_, _)) => if generation % 2 != 0 then Answered(false, []) else Reading(generation, [])
    case (LoadWord(_), Reading(before, got)) =>
      if |got| < |words| then Reading(before, got + [words[|got|]]) else reader
    case (EndRead(_), Reading(before, got)) =>
      if |got| == |words| then Answered(generation == before, got) else reader
    case _ => reader
  }

  function Next(s: State, move: Move): State {
    if move.BeginWrite? || move.StoreWord? || move.EndWrite? then WriterStep(s, move)
    else if move.r < |s.readers| then
      s.(readers := s.readers[move.r := ReaderStep(s.readers[move.r], move, s.generation, s.words)])
    else s
  }

  function Run(s: State, moves: seq<Move>): State
    decreases |moves|
  {
    if moves == [] then s else Next(Run(s, moves[..|moves| - 1]), moves[|moves| - 1])
  }

  // ---- what every run keeps ----

  /** The words are the last committed value, with the open write's first words over it. */
  ghost predicate WriterInv(s: State) {
    && |s.committed| > 0
    && |s.committed[|s.committed| - 1]| == |s.words|
    && match s.writer {
         case Idle => s.generation == 2 * (|s.committed| - 1) && s.words == s.committed[|s.committed| - 1]
         case Open(value, k) =>
           && s.generation == 2 * (|s.committed| - 1) + 1
           && k <= |value| == |s.words|
           && s.words == value[..k] + s.committed[|s.committed| - 1][k..]
       }
  }

  /** What a read has loaded is the current value, unless a write began since. */
  ghost predicate ReaderInv(s: State, reader: Reader) {
    reader.Reading? ==>
      && reader.before % 2 == 0 && reader.before <= s.generation
      && (reader.before == s.generation ==>
            s.writer.Idle? && |reader.got| <= |s.words| && reader.got == s.words[..|reader.got|])
  }

  ghost predicate Inv(s: State) {
    WriterInv(s) && forall r :: 0 <= r < |s.readers| ==> ReaderInv(s, s.readers[r])
  }

  lemma WriterKeepsInv(s: State, move: Move)
    requires Inv(s) && (move.BeginWrite? || move.StoreWord? || move.EndWrite?)
    ensures Inv(Next(s, move))
  {
    if move.StoreWord? && s.writer.Open? && s.writer.stored < |s.words| {
      var k, value := s.writer.stored, s.writer.value;
      assert value[..k + 1] == value[..k] + [value[k]];
    }
  }

  lemma ReaderKeepsInv(s: State, move: Move)
    requires Inv(s) && (move.BeginRead? || move.LoadWord? || move.EndRead?)
    ensures Inv(Next(s, move))
  {
    if move.r < |s.readers| {
      var reader := ReaderStep(s.readers[move.r], move, s.generation, s.words);
      assert ReaderInv(s, reader);
      forall r | 0 <= r < |s.readers| ensures ReaderInv(Next(s, move), Next(s, move).readers[r]) {}
    }
  }

  lemma {:induction false} RunKeepsInv(s: State, moves: seq<Move>)
    requires Inv(s)
    ensures Inv(Run(s, moves))
    decreases |moves|
  {
    if moves != [] {
      hide Inv, Next;
      var n := |moves| - 1;
      RunKeepsInv(s, moves[..n]);
      if moves[n].BeginWrite? || moves[n].StoreWord? || moves[n].EndWrite? {
        WriterKeepsInv(Run(s, moves[..n]), moves[n]);
      } else {
        ReaderKeepsInv(Run(s, moves[..n]), moves[n]);
      }
    }
  }

  /** A read that answers true answers one whole value: the one committed last, which no write has begun to replace. */
  lemma ReadIsOneWrite(initial: Value, readers: nat, moves: seq<Move>, r: nat)
    requires var s := Run(Start(initial, readers), moves);
             r < |s.readers| && s.readers[r].Reading? && Next(s, EndRead(r)).readers[r].Answered?
    ensures var s := Run(Start(initial, readers), moves);
            var reader := Next(s, EndRead(r)).readers[r];
            && |s.committed| > 0
            && (reader.ok ==> s.writer.Idle? && reader.value == s.committed[|s.committed| - 1])
  {
    RunKeepsInv(Start(initial, readers), moves);
  }

  // ---- exactly when a read succeeds ----

  /** No write is open at any moment of `moves`. */
  predicate Quiet(s: State, moves: seq<Move>)
    decreases |moves|
  {
    Run(s, moves).writer.Idle? && (moves == [] || Quiet(s, moves[..|moves| - 1]))
  }

  predicate LeavesReader(moves: seq<Move>, r: nat) {
    forall k :: 0 <= k < |moves| ==> moves[k] != BeginRead(r) && moves[k] != EndRead(r)
  }

  lemma {:induction false} GenerationOnlyGrows(s: State, moves: seq<Move>)
    ensures s.generation <= Run(s, moves).generation
    decreases |moves|
  {
    if moves != [] { GenerationOnlyGrows(s, moves[..|moves| - 1]); }
  }

  /** From a closed lock, a step leaves the generation alone exactly when it opens no write. */
  lemma StillIffClosed(s: State, move: Move)
    requires s.writer.Idle?
    ensures Next(s, move).writer.Idle? <==> Next(s, move).generation == s.generation
  {
  }

  /** The generation stands still exactly while no write begins or ends. */
  lemma {:induction false} QuietIffSameGeneration(s: State, moves: seq<Move>)
    requires s.writer.Idle?
    ensures Quiet(s, moves) <==> Run(s, moves).generation == s.generation
    decreases |moves|
  {
    if moves != [] {
      hide Next;
      var n := |moves| - 1;
      QuietIffSameGeneration(s, moves[..n]);
      GenerationOnlyGrows(s, moves[..n]);
      if Quiet(s, moves[..n]) {
        StillIffClosed(Run(s, moves[..n]), moves[n]);
      } else {
        GenerationStepGrows(Run(s, moves[..n]), moves[n]);
      }
    }
  }

  lemma GenerationStepGrows(s: State, move: Move)
    ensures s.generation <= Next(s, move).generation
  {
  }

  /** Between its first and its last load a reader keeps the generation it began with. */
  lemma {:induction false} KeepsItsGeneration(s: State, moves: seq<Move>, r: nat)
    requires r < |s.readers| && LeavesReader(moves, r)
    ensures var reader := Run(s, moves).readers;
            r < |reader|
            && (s.readers[r].Reading? ==> reader[r].Reading? && reader[r].before == s.readers[r].before)
            && (s.readers[r].Answered? ==> reader[r] == s.readers[r])
    decreases |moves|
  {
    if moves != [] {
      KeepsItsGeneration(s, moves[..|moves| - 1], r);
    }
  }

  lemma {:induction false} NotQuiet(s: State, moves: seq<Move>)
    requires !s.writer.Idle?
    ensures !Quiet(s, moves)
    decreases |moves|
  {
    if moves != [] { NotQuiet(s, moves[..|moves| - 1]); }
  }

  lemma ReadAnswersIff(s: State, during: seq<Move>, r: nat, t: State)
    requires s.generation % 2 == 0 <==> s.writer.Idle?
    requires r < |s.readers| && !s.readers[r].Reading? && LeavesReader(during, r)
    requires t == Run(Next(s, BeginRead(r)), during) && r < |t.readers|
    requires t.readers[r].Reading? ==> |t.readers[r].got| == |t.words|
    ensures var answer := Next(t, EndRead(r)).readers[r];
            answer.Answered? && (answer.ok <==> Quiet(Next(s, BeginRead(r)), during))
  {
    hide Quiet, Run;
    var s' := Next(s, BeginRead(r));
    assert s'.writer == s.writer && s'.generation == s.generation;
    KeepsItsGeneration(s', during, r);
    if s.writer.Idle? {
      QuietIffSameGeneration(s', during);
    } else {
      NotQuiet(s', during);
    }
  }

  lemma OddIffOpen(initial: Value, readers: nat, moves: seq<Move>)
    ensures var s := Run(Start(initial, readers), moves);
            s.generation % 2 == 0 <==> s.writer.Idle?
  {
    RunKeepsInv(Start(initial, readers), moves);
  }

  /** A read succeeds exactly when no write was open at any moment between its two loads of the generation. */
  lemma ReadSucceedsIff(initial: Value, readers: nat, before: seq<Move>, during: seq<Move>, r: nat)
    requires var s := Run(Start(initial, readers), before);
             r < |s.readers| && !s.readers[r].Reading? && LeavesReader(during, r)
    requires var t := Run(Next(Run(Start(initial, readers), before), BeginRead(r)), during);
             r < |t.readers| && (t.readers[r].Reading? ==> |t.readers[r].got| == |t.words|)
    ensures var s := Next(Run(Start(initial, readers), before), BeginRead(r));
            var answer := Next(Run(s, during), EndRead(r)).readers[r];
            answer.Answered? && (answer.ok <==> Quiet(s, during))
  {
    var s := Run(Start(initial, readers), before);
    hide *;
    OddIffOpen(initial, readers, before);
    ReadAnswersIff(s, during, r, Run(Next(s, BeginRead(r)), during));
  }

  // ---- a write and then a read ----

  lemma {:induction false} StoresWords(s: State, value: Value, n: nat)
    requires s.writer == Open(value, 0) && n <= |value| == |s.words|
    ensures Run(s, seq(n, _ => StoreWord)) == s.(words := value[..n] + s.words[n..], writer := Open(value, n))
    decreases n
  {
    if n == 0 {
      assert value[..0] + s.words[0..] == s.words;
    } else {
      StoresWords(s, value, n - 1);
      assert seq(n, _ => StoreWord)[..n - 1] == seq(n - 1, _ => StoreWord);
      StoresOne(s, value, n - 1);
      hide Next;
    }
  }

  lemma StoresOne(s: State, value: Value, k: nat)
    requires k < |value| == |s.words|
    ensures Next(s.(words := value[..k] + s.words[k..], writer := Open(value, k)), StoreWord)
            == s.(words := value[..k + 1] + s.words[k + 1..], writer := Open(value, k + 1))
  {
    assert (value[..k] + s.words[k..])[k := value[k]] == value[..k + 1] + s.words[k + 1..];
  }

  lemma {:induction false} LoadsWords(s: State, r: nat, before: nat, n: nat)
    requires r < |s.readers| && s.readers[r] == Reading(before, []) && n <= |s.words|
    ensures Run(s, seq(n, _ => LoadWord(r))) == s.(readers := s.readers[r := Reading(before, s.words[..n])])
    decreases n
  {
    if n == 0 {
      assert s.readers[r := Reading(before, [])] == s.readers;
    } else {
      LoadsWords(s, r, before, n - 1);
      assert seq(n, _ => LoadWord(r))[..n - 1] == seq(n - 1, _ => LoadWord(r));
      assert s.words[..n] == s.words[..n - 1] + [s.words[n - 1]];
      assert s.readers[r := Reading(before, s.words[..n - 1])][r := Reading(before, s.words[..n])]
        == s.readers[r := Reading(before, s.words[..n])];
    }
  }

  /** A whole write: opened, every word stored, closed. */
  function Written(s: State, value: Value): State {
    Next(Run(Next(s, BeginWrite(value)), seq(|value|, _ => StoreWord)), EndWrite)
  }

  /** A whole read by one reader. */
  function Read(s: State, r: nat): State {
    Next(Run(Next(s, BeginRead(r)), seq(|s.words|, _ => LoadWord(r))), EndRead(r))
  }

  lemma WriteCommits(s: State, value: Value)
    requires s.writer.Idle? && |value| == |s.words|
    ensures Written(s, value) ==
            s.(generation := s.generation + 2, words := value, committed := s.committed + [value])
  {
    StoresWords(Next(s, BeginWrite(value)), value, |value|);
    assert value[..|value|] + s.words[|value|..] == value;
    hide Run;
  }

  lemma ReadAnswers(s: State, r: nat)
    requires s.generation % 2 == 0 && r < |s.readers| && !s.readers[r].Reading?
    ensures Read(s, r) == s.(readers := s.readers[r := Answered(true, s.words)])
  {
    var s' := Next(s, BeginRead(r));
    LoadsWords(s', r, s.generation, |s.words|);
    assert s.words[..|s.words|] == s.words;
    assert s'.readers[r := Reading(s.generation, s.words)][r := Answered(true, s.words)]
      == s.readers[r := Answered(true, s.words)];
    hide Run;
  }

  /** In every state a run can reach with no write open: a value written is committed, and a read then, with nothing in
      between, answers true with that value. */
  lemma WriteThenRead(initial: Value, readers: nat, moves: seq<Move>, value: Value, r: nat)
    requires var s := Run(Start(initial, readers), moves);
             s.writer.Idle? && |value| == |s.words| && r < |s.readers| && !s.readers[r].Reading?
    ensures var s := Run(Start(initial, readers), moves);
            var w := Written(s, value);
            && w.writer.Idle? && w.committed == s.committed + [value] && r < |Read(w, r).readers|
            && Read(w, r).readers[r] == Answered(true, value)
  {
    var s := Run(Start(initial, readers), moves);
    OddIffOpen(initial, readers, moves);
    WriteCommits(s, value);
    hide Run, Next;
    ReadAnswers(Written(s, value), r);
  }
}
