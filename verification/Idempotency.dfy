/**
 The idempotency-key protocol (app/core/services/idempotency_service.py): look for a stored
 response, lock the key, execute, store the response.
 */
module Idempotency {
  import opened Wrappers
  import opened KeyStore

  const RESPONSE_SECONDS := 86400
  const IN_FLIGHT_SECONDS := 300

  datatype Cached = Processing | Completed(code: int, content: string)

  datatype Answer =
    | Miss                                // no stored response: the caller may go on
    | Conflict                            // 409 CONCURRENT_REQUEST
    | Replay(code: int, content: string)  // the stored response

  function RedisKey(path: string, key: string): string {
    "idempotency:" + path + ":" + key
  }

  function Look(entries: Entries<string, Cached>, k: string, at: int): Answer {
    if !Live(entries, k, at) then Miss
    else
      match entries[k].value
      case Processing => Conflict
      case Completed(code, content) => Replay(code, content)
  }

  // The key marked in flight.
  function InFlight(entries: Entries<string, Cached>, k: string, at: int): Entries<string, Cached> {
    entries[k := Entry(Processing, at + IN_FLIGHT_SECONDS)]
  }

  // The key holding a finished response.
  function Finished(entries: Entries<string, Cached>, k: string, code: int, content: string, ttl: int, at: int)
    : Entries<string, Cached>
  {
    entries[k := Entry(Completed(code, content), at + ttl)]
  }

  // The second path is the first with a colon and the start of the first key behind it.
  ghost predicate Continues(path: string, key: string, path2: string, key2: string) {
    exists x: string :: path2 == path + ":" + x && key == x + ":" + key2
  }

  // Two pairs share an entry exactly when they are the same or one continues the other.
  lemma RedisKeysCollide(path: string, key: string, path2: string, key2: string)
    ensures RedisKey(path, key) == RedisKey(path2, key2) <==>
            (path == path2 && key == key2) || Continues(path, key, path2, key2) || Continues(path2, key2, path, key)
  {
    assert RedisKey(path, key) == "idempotency:" + (path + ":" + key);
    assert RedisKey(path2, key2) == "idempotency:" + (path2 + ":" + key2);
    PrefixCancels("idempotency:", path + ":" + key, path2 + ":" + key2);
    if |path| <= |path2| {
      JoinsCollide(path, key, path2, key2);
    } else {
      JoinsCollide(path2, key2, path, key);
    }
  }

  lemma PrefixCancels(a: string, b: string, c: string)
    ensures a + b == a + c <==> b == c
  {
    assert (a + b)[|a|..] == b && (a + c)[|a|..] == c;
  }

  lemma JoinsCollide(path: string, key: string, path2: string, key2: string)
    requires |path| <= |path2|
    ensures path + ":" + key == path2 + ":" + key2 <==>
            (path == path2 && key == key2) || Continues(path, key, path2, key2)
    ensures !Continues(path2, key2, path, key)
  {
    var a, b := path + ":" + key, path2 + ":" + key2;
    if a == b {
      assert a[..|path|] == path && b[..|path2|] == path2;
      assert a[|path| + 1..] == key && b[|path2| + 1..] == key2;
      if |path| < |path2| {
        var x := path2[|path| + 1..];
        assert path2 == path + ":" + x by {
          assert path2[..|path|] == path;
          assert path2[|path|] == a[|path|] == ':';
        }
        assert key == x + ":" + key2;
      }
    }
    if Continues(path, key, path2, key2) {
      var x: string :| path2 == path + ":" + x && key == x + ":" + key2;
      assert a == path + ":" + x + ":" + key2;
    }
  }

  lemma ColonStays(path: string, x: string)
    ensures ':' in path + ":" + x
  {
    assert (path + ":" + x)[|path|] == ':';
  }

  // So paths without a colon have their keys to themselves.
  lemma PathsAreSeparated(path: string, key: string, path2: string, key2: string)
    requires ':' !in path && ':' !in path2 && RedisKey(path, key) == RedisKey(path2, key2)
    ensures path == path2 && key == key2
  {
    RedisKeysCollide(path, key, path2, key2);
    forall x: string
      ensures ':' in path + ":" + x && ':' in path2 + ":" + x
    {
      ColonStays(path, x);
      ColonStays(path2, x);
    }
  }

  class IdempotencyService {
    var client: Redis?<string, Cached>

    constructor (client: Redis?<string, Cached>)
      ensures this.client == client
    {
      this.client := client;
    }

    method GetCachedResponse(key: string, path: string, at: int) returns (a: Answer)
      ensures client == null || key == "" ==> a == Miss
      ensures client != null && key != "" ==>
                var k := RedisKey(path, key);
                && (a == Miss <==> !(k in client.entries && at < client.entries[k].expires))
                && (a == Conflict <==> k in client.entries && at < client.entries[k].expires
                                       && client.entries[k].value == Processing)
                && (forall code, content ::
                      a == Replay(code, content) <==>
                      k in client.entries && at < client.entries[k].expires
                      && client.entries[k].value == Completed(code, content))
    {
      if client == null || key == "" {
        return Miss;
      }
      var raw := client.Get(RedisKey(path, key), at);
      match raw {
        case None => a := Miss;
        case Some(Processing) => a := Conflict;
        case Some(Completed(code, content)) => a := Replay(code, content);
      }
    }

    // Without Redis or a key the lock is granted.
    method LockKey(key: string, path: string, at: int) returns (locked: bool)
      modifies client
      ensures client == null || key == "" ==> locked && (client != null ==> client.entries == old(client.entries))
      ensures client != null && key != "" ==>
                && locked == !Live(old(client.entries), RedisKey(path, key), at)
                && client.entries == if locked then InFlight(old(client.entries), RedisKey(path, key), at)
                                     else old(client.entries)
    {
      if client == null || key == "" {
        return true;
      }
      locked := client.SetNx(RedisKey(path, key), Processing, IN_FLIGHT_SECONDS, at);
    }

    method SaveResponse(key: string, path: string, code: int, content: string, ttl: int, at: int) returns (saved: bool)
      modifies client
      ensures saved == (client != null && key != "")
      ensures client != null ==>
                client.entries == if saved then Finished(old(client.entries), RedisKey(path, key), code, content, ttl, at)
                                  else old(client.entries)
    {
      if client == null || key == "" {
        return false;
      }
      client.SetEx(RedisKey(path, key), Completed(code, content), ttl, at);
      saved := true;
    }

    // check_idempotency: the look-up at one moment, the lock at a later one.
    method CheckIdempotency(key: string, path: string, looked: int, at: int) returns (a: Answer)
      modifies client
      ensures client == null || key == "" ==> a == Miss
      ensures client != null && key != "" ==>
                var k := RedisKey(path, key);
                && (a == Miss <==> !Live(old(client.entries), k, looked) && !Live(old(client.entries), k, at))
                && (forall code, content ::
                      a == Replay(code, content) <==>
                      Live(old(client.entries), k, looked) && old(client.entries)[k].value == Completed(code, content))
                && client.entries == if a == Miss then InFlight(old(client.entries), k, at)
                                     else old(client.entries)
    {
      if key == "" {
        return Miss;
      }
      a := GetCachedResponse(key, path, looked);
      if a == Miss {
        var locked := LockKey(key, path, at);
        if !locked {
          a := Conflict;
        }
      }
    }
  }

  // --- Clients sharing one key ------------------------------------------------

  datatype Phase =
    | Idle
    | Missed                   // the look-up found nothing; the lock is not yet asked for
    | Executing(since: int)    // holds the lock
    | Ended                    // answered, refused or failed

  datatype Note =
    | LockTaken(client: nat, at: int)
    | Saved(client: nat, at: int, code: int, content: string)
    | Replayed(client: nat, at: int, code: int, content: string)

  // The entry of the shared key, the phase of each client, and what happened so far.
  datatype World = World(entries: Entries<string, Cached>, phases: map<nat, Phase>, log: seq<Note>)

  datatype Move =
    | Looks(client: nat, at: int)
    | Locks(client: nat, at: int)
    | Saves(client: nat, at: int, code: int, content: string)
    | Fails(client: nat, at: int)    // the execution raises: nothing is stored
    | Retries(client: nat, at: int)

  function PhaseOf(w: World, c: nat): Phase {
    if c in w.phases then w.phases[c] else Idle
  }

  // One client performs its next command on key k; a command out of turn does nothing.
  function MoveWorld(w: World, k: string, m: Move): World {
    match m
    case Looks(c, at) =>
      if PhaseOf(w, c) != Idle then w
      else (match Look(w.entries, k, at)
            case Miss => w.(phases := w.phases[c := Missed])
            case Conflict => w.(phases := w.phases[c := Ended])
            case Replay(code, content) =>
              w.(phases := w.phases[c := Ended], log := w.log + [Replayed(c, at, code, content)]))
    case Locks(c, at) =>
      if PhaseOf(w, c) != Missed then w
      else if Live(w.entries, k, at) then w.(phases := w.phases[c := Ended])
      else World(InFlight(w.entries, k, at), w.phases[c := Executing(at)], w.log + [LockTaken(c, at)])
    case Saves(c, at, code, content) =>
      if !PhaseOf(w, c).Executing? then w
      else World(Finished(w.entries, k, code, content, RESPONSE_SECONDS, at), w.phases[c := Ended],
                 w.log + [Saved(c, at, code, content)])
    case Fails(c, at) =>
      if !PhaseOf(w, c).Executing? then w else w.(phases := w.phases[c := Ended])
    case Retries(c, at) =>
      if PhaseOf(w, c) != Ended then w else w.(phases := w.phases[c := Idle])
  }

  function RunMoves(w: World, k: string, moves: seq<Move>): World {
    if moves == [] then w else MoveWorld(RunMoves(w, k, moves[..|moves| - 1]), k, moves[|moves| - 1])
  }

  const START := World(map[], map[], [])

  // At this moment no execution is older than the life of its lock.
  ghost predicate OnTime(w: World, at: int) {
    forall c :: PhaseOf(w, c).Executing? ==> PhaseOf(w, c).since <= at < PhaseOf(w, c).since + IN_FLIGHT_SECONDS
  }

  // Every execution of the run finishes within the life of its lock.
  ghost predicate AllOnTime(k: string, moves: seq<Move>) {
    forall i :: 0 <= i < |moves| ==> OnTime(RunMoves(START, k, moves[..i]), moves[i].at)
  }

  // The last stored response.
  function LastSave(log: seq<Note>): Option<Note> {
    if log == [] then None
    else if log[|log| - 1].Saved? then Some(log[|log| - 1])
    else LastSave(log[..|log| - 1])
  }

  // How long the note keeps other clients from locking the key.
  function Holds(n: Note): int {
    match n
    case LockTaken(_, at) => at + IN_FLIGHT_SECONDS
    case Saved(_, at, _, _) => at + RESPONSE_SECONDS
    case Replayed(_, at, _, _) => at
  }

  // The holder of the lock is alone, and its entry is in place.
  ghost predicate Exclusive(w: World, k: string) {
    && (forall c :: PhaseOf(w, c).Executing? ==>
          k in w.entries && w.entries[k] == Entry(Processing, PhaseOf(w, c).since + IN_FLIGHT_SECONDS))
    && (forall c, d :: PhaseOf(w, c).Executing? && PhaseOf(w, d).Executing? ==> c == d)
  }

  // A stored response is the last one saved.
  ghost predicate Faithful(w: World, k: string) {
    k in w.entries && w.entries[k].value.Completed? ==>
      && LastSave(w.log).Some? && LastSave(w.log).value.Saved?
      && w.entries[k] == Entry(Completed(LastSave(w.log).value.code, LastSave(w.log).value.content),
                               LastSave(w.log).value.at + RESPONSE_SECONDS)
  }

  // Every lock and save is covered by the entry's expiry.
  ghost predicate Covered(w: World, k: string) {
    forall i :: 0 <= i < |w.log| && !w.log[i].Replayed? ==> k in w.entries && Holds(w.log[i]) <= w.entries[k].expires
  }

  // A lock is only ever taken once everything before it has run out.
  ghost predicate Separated(log: seq<Note>) {
    forall i, j :: 0 <= i < j < |log| && !log[i].Replayed? && log[j].LockTaken? ==> Holds(log[i]) <= log[j].at
  }

  // A replay repeats the last save before it, within its time to live.
  ghost predicate ReplaysLastSave(log: seq<Note>, j: nat)
    requires j < |log|
  {
    log[j].Replayed? ==>
      match LastSave(log[..j])
      case Some(Saved(_, at, code, content)) =>
        log[j].code == code && log[j].content == content && log[j].at < at + RESPONSE_SECONDS
      case _ => false
  }

  ghost predicate ReplaysFaithful(log: seq<Note>) {
    forall j :: 0 <= j < |log| ==> ReplaysLastSave(log, j)
  }

  ghost predicate Inv(w: World, k: string) {
    Exclusive(w, k) && Faithful(w, k) && Covered(w, k) && Separated(w.log) && ReplaysFaithful(w.log)
  }

  lemma NotedReplays(log: seq<Note>, n: Note)
    requires ReplaysFaithful(log)
    requires n.Replayed? ==> LastSave(log).Some? && LastSave(log).value.Saved?
                             && LastSave(log).value.code == n.code && LastSave(log).value.content == n.content
                             && n.at < LastSave(log).value.at + RESPONSE_SECONDS
    ensures ReplaysFaithful(log + [n])
    ensures LastSave(log + [n]) == if n.Saved? then Some(n) else LastSave(log)
  {
    assert (log + [n])[..|log|] == log;
    forall j | 0 <= j < |log + [n]|
      ensures ReplaysLastSave(log + [n], j)
    {
      if j < |log| {
        assert (log + [n])[..j] == log[..j];
        assert ReplaysLastSave(log, j);
      }
    }
  }

  lemma MoveKeepsExclusive(w: World, k: string, m: Move)
    requires Exclusive(w, k) && OnTime(w, m.at)
    ensures Exclusive(MoveWorld(w, k, m), k)
  {
    var d := MoveWorld(w, k, m);
    assert forall c: nat :: c != m.client ==> PhaseOf(d, c) == PhaseOf(w, c);
  }

  lemma MoveKeepsLog(w: World, k: string, m: Move)
    requires Inv(w, k) && OnTime(w, m.at)
    ensures var d := MoveWorld(w, k, m);
            Faithful(d, k) && Covered(d, k) && Separated(d.log) && ReplaysFaithful(d.log)
  {
    var d := MoveWorld(w, k, m);
    if d.log != w.log {
      NotedReplays(w.log, d.log[|w.log|]);
    }
  }

  lemma {:induction false} ProtocolInv(k: string, moves: seq<Move>)
    requires AllOnTime(k, moves)
    ensures Inv(RunMoves(START, k, moves), k)
  {
    if moves != [] {
      var last := |moves| - 1;
      forall i | 0 <= i < last
        ensures OnTime(RunMoves(START, k, moves[..last][..i]), moves[..last][i].at)
      {
        assert moves[..last][..i] == moves[..i];
      }
      ProtocolInv(k, moves[..last]);
      MoveKeepsExclusive(RunMoves(START, k, moves[..last]), k, moves[last]);
      MoveKeepsLog(RunMoves(START, k, moves[..last]), k, moves[last]);
    }
  }

  // Under any interleaving of any number of clients: never two executions at once; none
  // while a stored response is live; after a lock the key stays locked for 300 s, after a
  // save for 24 h; and every replay returns exactly the last response saved.
  lemma ExecutionsAreExclusive(k: string, moves: seq<Move>, c: nat, d: nat, at: int)
    requires AllOnTime(k, moves)
    ensures var w := RunMoves(START, k, moves);
            && (PhaseOf(w, c).Executing? && PhaseOf(w, d).Executing? ==> c == d)
            && (k in w.entries && at < w.entries[k].expires && w.entries[k].value.Completed? ==> !PhaseOf(w, c).Executing?)
            && Separated(w.log) && ReplaysFaithful(w.log)
  {
    ProtocolInv(k, moves);
  }

  // --- What each client is told -----------------------------------------------

  // The last lock or save.
  ghost function LastHold(log: seq<Note>): Option<Note> {
    if log == [] then None
    else if !log[|log| - 1].Replayed? then Some(log[|log| - 1])
    else LastHold(log[..|log| - 1])
  }

  // The entry of the key is what the last lock or save left.
  ghost predicate EntryIsHold(w: World, k: string) {
    match LastHold(w.log)
    case None => k !in w.entries
    case Some(LockTaken(_, at)) => k in w.entries && w.entries[k] == Entry(Processing, at + 300)
    case Some(Saved(_, at, code, content)) =>
      k in w.entries && w.entries[k] == Entry(Completed(code, content), at + 86400)
    case Some(Replayed(_, _, _, _)) => false
  }

  lemma HoldAppend(log: seq<Note>, n: Note)
    ensures LastHold(log + [n]) == if n.Replayed? then LastHold(log) else Some(n)
  {
  }

  lemma MoveKeepsHold(w: World, k: string, m: Move)
    requires EntryIsHold(w, k)
    ensures EntryIsHold(MoveWorld(w, k, m), k)
  {
    var d := MoveWorld(w, k, m);
    if d.log != w.log {
      HoldAppend(w.log, d.log[|w.log|]);
    }
  }

  lemma {:induction false} HoldInv(k: string, moves: seq<Move>)
    ensures EntryIsHold(RunMoves(START, k, moves), k)
  {
    if moves != [] {
      HoldInv(k, moves[..|moves| - 1]);
      MoveKeepsHold(RunMoves(START, k, moves[..|moves| - 1]), k, moves[|moves| - 1]);
    }
  }

  // In every run, late or not, a client that starts with a look-up is replayed the last saved
  // response while it is less than 24 h old, refused while the last lock is less than 300 s
  // old, and goes on to the lock otherwise.
  lemma LookRule(k: string, moves: seq<Move>, c: nat, at: int)
    requires PhaseOf(RunMoves(START, k, moves), c) == Idle
    ensures var w := RunMoves(START, k, moves);
            var d := MoveWorld(w, k, Looks(c, at));
            match LastHold(w.log)
            case Some(Saved(_, s, code, content)) =>
              if at < s + 86400 then d.log == w.log + [Replayed(c, at, code, content)] && PhaseOf(d, c) == Ended
              else d.log == w.log && PhaseOf(d, c) == Missed
            case Some(LockTaken(_, s)) =>
              d.log == w.log && PhaseOf(d, c) == if at < s + 300 then Ended else Missed
            case _ => d.log == w.log && PhaseOf(d, c) == Missed
  {
    HoldInv(k, moves);
  }

  // A client that missed executes exactly when the last lock or save has run out by then.
  lemma LockGrantRule(k: string, moves: seq<Move>, c: nat, at: int)
    requires PhaseOf(RunMoves(START, k, moves), c) == Missed
    ensures var w := RunMoves(START, k, moves);
            var d := MoveWorld(w, k, Locks(c, at));
            var free := match LastHold(w.log)
                        case Some(Saved(_, s, _, _)) => s + 86400 <= at
                        case Some(LockTaken(_, s)) => s + 300 <= at
                        case _ => true;
            if free then d.log == w.log + [LockTaken(c, at)] && PhaseOf(d, c) == Executing(at)
            else d.log == w.log && PhaseOf(d, c) == Ended
  {
    HoldInv(k, moves);
  }

  // An execution that finishes logs its response, which the look-ups after it then replay.
  lemma SaveRule(k: string, moves: seq<Move>, c: nat, at: int, code: int, content: string)
    requires PhaseOf(RunMoves(START, k, moves), c).Executing?
    ensures var w := RunMoves(START, k, moves);
            var d := MoveWorld(w, k, Saves(c, at, code, content));
            && d.log == w.log + [Saved(c, at, code, content)] && PhaseOf(d, c) == Ended
            && LastHold(d.log) == Some(Saved(c, at, code, content))
  {
    HoldAppend(RunMoves(START, k, moves).log, Saved(c, at, code, content));
  }

  // A failed execution stores nothing and keeps its lock: even its own client, trying again, is
  // refused for the rest of the 300 s.
  lemma FailureRule(k: string, moves: seq<Move>, c: nat, failed: int, retried: int, at: int)
    requires PhaseOf(RunMoves(START, k, moves), c).Executing?
    requires LastHold(RunMoves(START, k, moves).log) == Some(LockTaken(c, PhaseOf(RunMoves(START, k, moves), c).since))
    ensures var w := RunMoves(START, k, moves);
            var s := PhaseOf(w, c).since;
            var after := MoveWorld(w, k, Fails(c, failed));
            var again := MoveWorld(after, k, Retries(c, retried));
            var d := MoveWorld(again, k, Looks(c, at));
            && PhaseOf(after, c) == Ended && PhaseOf(again, c) == Idle
            && after.entries == again.entries == d.entries == w.entries && d.log == w.log
            && PhaseOf(d, c) == (if at < s + 300 then Ended else Missed)
  {
    HoldInv(k, moves);
  }

  // --- When executions overlap ------------------------------------------------

  ghost predicate Alone(w: World) {
    forall c, d :: PhaseOf(w, c).Executing? && PhaseOf(w, d).Executing? ==> c == d
  }

  // What shows before the move: a client that found nothing asks for the lock while another
  // has been executing for as long as its lock lives.
  ghost predicate Overlaps(w: World, m: Move) {
    && m.Locks? && PhaseOf(w, m.client) == Missed
    && exists c :: PhaseOf(w, c).Executing? && PhaseOf(w, c).since + IN_FLIGHT_SECONDS <= m.at
  }

  // Beside an execution begun at `since`, a lock succeeds from 300 s on and not before.
  lemma LockRule(w: World, k: string, c: nat, m: Move)
    requires Exclusive(w, k) && PhaseOf(w, c).Executing? && m.Locks? && PhaseOf(w, m.client) == Missed
    ensures PhaseOf(MoveWorld(w, k, m), m.client).Executing? <==> PhaseOf(w, c).since + IN_FLIGHT_SECONDS <= m.at
    ensures PhaseOf(MoveWorld(w, k, m), c) == PhaseOf(w, c)
  {
  }

  lemma OverlapRule(w: World, k: string, m: Move)
    requires Exclusive(w, k)
    ensures Alone(MoveWorld(w, k, m)) <==> !Overlaps(w, m)
    ensures !Overlaps(w, m) ==> Exclusive(MoveWorld(w, k, m), k)
  {
    var d := MoveWorld(w, k, m);
    assert forall c: nat :: c != m.client ==> PhaseOf(d, c) == PhaseOf(w, c);
    if Overlaps(w, m) {
      var c :| PhaseOf(w, c).Executing? && PhaseOf(w, c).since + IN_FLIGHT_SECONDS <= m.at;
      LockRule(w, k, c, m);
    }
  }

  // At no moment of the run do two clients execute.
  ghost predicate AlwaysAlone(k: string, moves: seq<Move>) {
    && Alone(RunMoves(START, k, moves))
    && (moves != [] ==> AlwaysAlone(k, moves[..|moves| - 1]))
  }

  ghost predicate NeverOverlaps(k: string, moves: seq<Move>) {
    moves != [] ==>
      && NeverOverlaps(k, moves[..|moves| - 1])
      && !Overlaps(RunMoves(START, k, moves[..|moves| - 1]), moves[|moves| - 1])
  }

  // Executions exclude one another throughout a run exactly when no lock is asked for beside
  // an execution that has outlived its own.
  lemma {:induction false} ExclusiveExactly(k: string, moves: seq<Move>)
    ensures AlwaysAlone(k, moves) <==> NeverOverlaps(k, moves)
    ensures NeverOverlaps(k, moves) ==> Exclusive(RunMoves(START, k, moves), k)
  {
    if moves != [] {
      ExclusiveExactly(k, moves[..|moves| - 1]);
      if NeverOverlaps(k, moves[..|moves| - 1]) {
        OverlapRule(RunMoves(START, k, moves[..|moves| - 1]), k, moves[|moves| - 1]);
      }
    }
  }

  // It happens: once an execution outlives its lock, another client locks the key and both
  // execute.
  lemma LateExecutionsOverlap(k: string)
    ensures var w := MoveWorld(MoveWorld(MoveWorld(MoveWorld(START, k, Looks(0, 0)), k, Locks(0, 0)),
                                         k, Looks(1, IN_FLIGHT_SECONDS)), k, Locks(1, IN_FLIGHT_SECONDS));
            PhaseOf(w, 0).Executing? && PhaseOf(w, 1).Executing?
  {
  }
}
