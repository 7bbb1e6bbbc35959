/** Idempotent replay over a first-writer-wins store, one call at a time and interleaved. */
module Idempotency {
  import opened Basics

  datatype Record = Record(key: string, requestHash: string, responseCode: int, responseBody: string)

  type Table = map<string, Record>

  /** SHA-256 of a request body, and the JSON form of a response; a value may have none. */
  datatype Codec<!V> = Codec(hash: string -> string, encode: V -> Option<string>, decode: string -> Option<V>)

  /** What is encoded and stored decodes to the same value. */
  ghost predicate RoundTrips<V(!new)>(c: Codec<V>) {
    forall v :: c.encode(v).Some? ==> c.decode(c.encode(v).value) == Some(v)
  }

  datatype Response<V> = Response(code: int, value: V)

  /** A request; `created` is what its create function returns if it is called, None for an error. */
  datatype Call<V> = Call(key: string, body: string, created: Option<Response<V>>)

  /** The answer, None for an error, and whether create was called. */
  datatype Reply<V> = Reply(response: Option<Response<V>>, called: bool)

  function RecordOf<V>(c: Codec<V>, call: Call<V>): Option<Record> {
    if call.created.None? then None
    else match c.encode(call.created.value.value)
      case None => None
      case Some(body) => Some(Record(call.key, c.hash(call.body), call.created.value.code, body))
  }

  /** INSERT ... ON CONFLICT (key) DO NOTHING. */
  function Inserted(table: Table, record: Record): Table {
    if record.key in table then table else table[record.key := record]
  }

  /** The stored answer, if the request is the one that was stored. */
  function Replayed<V>(c: Codec<V>, record: Record, call: Call<V>): Option<Response<V>> {
    if record.requestHash != c.hash(call.body) then None
    else match c.decode(record.responseBody)
      case None => None
      case Some(value) => Some(Response(record.responseCode, value))
  }

  function Answer<V>(c: Codec<V>, table: Table, call: Call<V>): Reply<V> {
    if call.key == "" then Reply(None, false)
    else if call.key in table then Reply(Replayed(c, table[call.key], call), false)
    else Reply(if RecordOf(c, call).Some? then call.created else None, true)
  }

  function After<V>(c: Codec<V>, table: Table, call: Call<V>): Table {
    if call.key == "" || call.key in table || RecordOf(c, call).None? then table
    else Inserted(table, RecordOf(c, call).value)
  }

  class Store {
    var table: Table

    constructor ()
      ensures table == map[]
    {
      table := map[];
    }

    method Get(key: string) returns (record: Option<Record>)
      ensures record == if key in table then Some(table[key]) else None
    {
      if key in table {
        return Some(table[key]);
      }
      return None;
    }

    method Put(record: Record)
      modifies this
      ensures table == Inserted(old(table), record)
    {
      if record.key !in table {
        table := table[record.key := record];
      }
    }
  }

  method ReplayOr<V(0)>(store: Store, c: Codec<V>, call: Call<V>) returns (reply: Reply<V>)
    modifies store
    ensures reply == Answer(c, old(store.table), call)
    ensures store.table == After(c, old(store.table), call)
  {
    if call.key == "" {
      return Reply(None, false);
    }
    var found := store.Get(call.key);
    if found.Some? {
      if found.value.requestHash != c.hash(call.body) {
        return Reply(None, false);
      }
      var value := c.decode(found.value.responseBody);
      if value.None? {
        return Reply(None, false);
      }
      return Reply(Some(Response(found.value.responseCode, value.value)), false);
    }
    if call.created.None? {
      return Reply(None, true);
    }
    var body := c.encode(call.created.value.value);
    if body.None? {
      return Reply(None, true);
    }
    store.Put(Record(call.key, c.hash(call.body), call.created.value.code, body.value));
    return Reply(call.created, true);
  }

  // ---------- runs of whole calls ----------

  function TableAt<V>(c: Codec<V>, calls: seq<Call<V>>, k: nat): Table
    requires k <= |calls|
  {
    if k == 0 then map[] else After(c, TableAt(c, calls, k - 1), calls[k - 1])
  }

  function ReplyAt<V>(c: Codec<V>, calls: seq<Call<V>>, k: nat): Reply<V>
    requires k < |calls|
  {
    Answer(c, TableAt(c, calls, k), calls[k])
  }

  lemma {:induction false} RecordsStay<V>(c: Codec<V>, calls: seq<Call<V>>, j: nat, k: nat, key: string)
    requires j <= k <= |calls| && key in TableAt(c, calls, j)
    ensures key in TableAt(c, calls, k) && TableAt(c, calls, k)[key] == TableAt(c, calls, j)[key]
    decreases k
  {
    if j < k { RecordsStay(c, calls, j, k - 1, key); }
  }

  /** Call k ran create, and create succeeded with a value that can be encoded. */
  ghost predicate Created<V>(c: Codec<V>, calls: seq<Call<V>>, k: nat) {
    k < |calls| && ReplyAt(c, calls, k).called && RecordOf(c, calls[k]).Some?
  }

  /**
   Once a call has created, every later call with its key replays: the same code and value for the same
   request, an error for a different one, create never called and the store untouched.
   */
  lemma {:induction false} LaterCallsReplay<V(!new)>(c: Codec<V>, calls: seq<Call<V>>, i: nat, j: nat)
    requires RoundTrips(c) && Created(c, calls, i) && i < j < |calls| && calls[j].key == calls[i].key
    ensures ReplyAt(c, calls, i).response == calls[i].created
    ensures !ReplyAt(c, calls, j).called && TableAt(c, calls, j + 1) == TableAt(c, calls, j)
    ensures ReplyAt(c, calls, j).response
         == if c.hash(calls[j].body) == c.hash(calls[i].body) then calls[i].created else None
  {
    RecordsStay(c, calls, i + 1, j, calls[i].key);
  }

  /** Hence create succeeds at most once per key, as long as its values can be encoded. */
  lemma {:induction false} CreatesOnce<V>(c: Codec<V>, calls: seq<Call<V>>, i: nat, j: nat)
    requires Created(c, calls, i) && Created(c, calls, j) && calls[i].key == calls[j].key
    ensures i == j
  {
    if i < j { RecordsStay(c, calls, i + 1, j, calls[i].key); }
    if j < i { RecordsStay(c, calls, j + 1, i, calls[i].key); }
  }

  lemma {:induction false} TableExactly<V>(c: Codec<V>, calls: seq<Call<V>>, k: nat, key: string)
    requires k <= |calls|
    ensures key in TableAt(c, calls, k) <==> exists i: nat :: i < k && Created(c, calls, i) && calls[i].key == key
  {
    if k > 0 {
      TableExactly(c, calls, k - 1, key);
      CreatedStores(c, calls, k - 1, key);
    }
  }

  lemma CreatedStores<V>(c: Codec<V>, calls: seq<Call<V>>, k: nat, key: string)
    requires k < |calls|
    ensures key in TableAt(c, calls, k + 1)
       <==> key in TableAt(c, calls, k) || (Created(c, calls, k) && calls[k].key == key)
  {
  }

  /** A call runs create exactly when its key is not empty and no earlier call has created a record for it. */
  lemma CalledExactly<V>(c: Codec<V>, calls: seq<Call<V>>, j: nat)
    requires j < |calls|
    ensures ReplyAt(c, calls, j).called
       <==> calls[j].key != "" && !exists i: nat :: i < j && Created(c, calls, i) && calls[i].key == calls[j].key
  {
    TableExactly(c, calls, j, calls[j].key);
  }

  /** A create that succeeded is repeated by the next call exactly when its value could not be encoded. */
  lemma RepeatsExactly<V>(c: Codec<V>, table: Table, first: Call<V>, second: Call<V>)
    requires first.key != "" && first.key !in table && first.created.Some? && second.key == first.key
    ensures Answer(c, After(c, table, first), second).called <==> c.encode(first.created.value.value).None?
  {
  }

  // ---------- interleaved calls ----------

  /** A caller that found no record, and one that has created and is about to store. */
  datatype Phase<V> = Missing(call: Call<V>) | Holding(call: Call<V>, record: Record) | Done(reply: Reply<V>)

  datatype World<V> = World(table: Table, callers: map<nat, Phase<V>>)

  datatype Move<V> = Look(p: nat, call: Call<V>) | Run(p: nat) | Save(p: nat)

  function Step<V>(c: Codec<V>, w: World<V>, a: Move<V>): World<V> {
    match a
    case Look(p, call) =>
      if p in w.callers then w
      else if call.key == "" || call.key in w.table then w.(callers := w.callers[p := Done(Answer(c, w.table, call))])
      else w.(callers := w.callers[p := Missing(call)])
    case Run(p) =>
      if p !in w.callers || !w.callers[p].Missing? then w
      else (
        match RecordOf(c, w.callers[p].call)
        case None => w.(callers := w.callers[p := Done(Reply(None, true))])
        case Some(record) => w.(callers := w.callers[p := Holding(w.callers[p].call, record)])
      )
    case Save(p) =>
      if p !in w.callers || !w.callers[p].Holding? then w
      else World(Inserted(w.table, w.callers[p].record), w.callers[p := Done(Reply(w.callers[p].call.created, true))])
  }

  function WorldAt<V>(c: Codec<V>, run: seq<Move<V>>, k: nat): World<V>
    requires k <= |run|
  {
    if k == 0 then World(map[], map[]) else Step(c, WorldAt(c, run, k - 1), run[k - 1])
  }

  /** Under any interleaving a stored record is never replaced. */
  lemma {:induction false} NeverReplaced<V>(c: Codec<V>, run: seq<Move<V>>, j: nat, k: nat, key: string)
    requires j <= k <= |run| && key in WorldAt(c, run, j).table
    ensures key in WorldAt(c, run, k).table && WorldAt(c, run, k).table[key] == WorldAt(c, run, j).table[key]
    decreases k
  {
    if j < k { NeverReplaced(c, run, j, k - 1, key); }
  }

  // ---------- who creates ----------

  /** Step i of the run is p's look, made when p had not looked before. */
  ghost predicate Looks<V>(c: Codec<V>, run: seq<Move<V>>, i: nat, p: nat) {
    i < |run| && run[i].Look? && run[i].p == p && p !in WorldAt(c, run, i).callers
  }

  /** Such a look that found a nonempty key absent. */
  ghost predicate Misses<V>(c: Codec<V>, run: seq<Move<V>>, i: nat, p: nat) {
    Looks(c, run, i, p) && run[i].call.key != "" && run[i].call.key !in WorldAt(c, run, i).table
  }

  /** Step i of the run stores a record under the key, or finds one there already. */
  ghost predicate Saves<V>(c: Codec<V>, run: seq<Move<V>>, i: nat, key: string) {
    && i < |run| && run[i].Save? && run[i].p in WorldAt(c, run, i).callers
    && WorldAt(c, run, i).callers[run[i].p].Holding? && WorldAt(c, run, i).callers[run[i].p].record.key == key
  }

  /** The caller has run create. */
  ghost predicate HasCreated<V>(phase: Phase<V>) {
    phase.Holding? || (phase.Done? && phase.reply.called)
  }

  /** Some time between steps i and k the caller got to run create. */
  ghost predicate Runs<V>(run: seq<Move<V>>, i: nat, k: nat, p: nat)
    requires k <= |run|
  {
    exists m :: i < m < k && run[m] == Run(p)
  }

  /** What p is after k steps, from the step at which it looked. */
  ghost predicate PhaseTrue<V>(c: Codec<V>, run: seq<Move<V>>, i: nat, k: nat, p: nat)
    requires i < k <= |run| && Looks(c, run, i, p)
  {
    var w := WorldAt(c, run, k);
    var call := run[i].call;
    && p in w.callers
    && match w.callers[p]
       case Missing(other) => Misses(c, run, i, p) && !Runs(run, i, k, p) && other == call
       case Holding(other, record) =>
         Misses(c, run, i, p) && Runs(run, i, k, p) && other == call && RecordOf(c, call) == Some(record)
       case Done(reply) =>
         if Misses(c, run, i, p)
         then Runs(run, i, k, p) && reply == Reply(if RecordOf(c, call).Some? then call.created else None, true)
         else reply == Answer(c, WorldAt(c, run, i).table, call) && !reply.called
  }

  lemma PhaseStep<V>(c: Codec<V>, run: seq<Move<V>>, i: nat, k: nat, p: nat)
    requires i < k < |run| && Looks(c, run, i, p) && PhaseTrue(c, run, i, k, p)
    ensures PhaseTrue(c, run, i, k + 1, p)
  {
    if run[k] == Run(p) {
      assert Runs(run, i, k + 1, p);
    } else {
      assert Runs(run, i, k + 1, p) <==> Runs(run, i, k, p);
    }
  }

  lemma {:induction false} PhasesTrue<V>(c: Codec<V>, run: seq<Move<V>>, i: nat, k: nat, p: nat)
    requires i < k <= |run| && Looks(c, run, i, p)
    ensures PhaseTrue(c, run, i, k, p)
    decreases k
  {
    if k > i + 1 {
      PhasesTrue(c, run, i, k - 1, p);
      PhaseStep(c, run, i, k - 1, p);
    }
  }

  /** Whoever is a caller has looked. */
  lemma {:induction false} CallerLooked<V>(c: Codec<V>, run: seq<Move<V>>, k: nat, p: nat) returns (i: nat)
    requires k <= |run| && p in WorldAt(c, run, k).callers
    ensures i < k && Looks(c, run, i, p)
    decreases k
  {
    if p in WorldAt(c, run, k - 1).callers {
      i := CallerLooked(c, run, k - 1, p);
    } else {
      i := k - 1;
    }
  }

  /** In every run, a caller has run create exactly when its own look found its key absent and it went on since. */
  lemma CreatedExactly<V>(c: Codec<V>, run: seq<Move<V>>, k: nat, p: nat)
    requires k <= |run|
    ensures p in WorldAt(c, run, k).callers && HasCreated(WorldAt(c, run, k).callers[p])
       <==> exists i: nat :: i < k && Misses(c, run, i, p) && Runs(run, i, k, p)
  {
    if p in WorldAt(c, run, k).callers && HasCreated(WorldAt(c, run, k).callers[p]) {
      var i := CallerLooked(c, run, k, p);
      PhasesTrue(c, run, i, k, p);
    }
    if i: nat :| i < k && Misses(c, run, i, p) && Runs(run, i, k, p) {
      PhasesTrue(c, run, i, k, p);
    }
  }

  /** A key is in the table exactly when some step saved it. */
  lemma {:induction false} StoredExactly<V>(c: Codec<V>, run: seq<Move<V>>, k: nat, key: string)
    requires k <= |run|
    ensures key in WorldAt(c, run, k).table <==> exists s: nat :: s < k && Saves(c, run, s, key)
    decreases k
  {
    if k > 0 {
      StoredExactly(c, run, k - 1, key);
      SaveStores(c, run, k - 1, key);
    }
  }

  lemma SaveStores<V>(c: Codec<V>, run: seq<Move<V>>, k: nat, key: string)
    requires k < |run|
    ensures key in WorldAt(c, run, k + 1).table <==> key in WorldAt(c, run, k).table || Saves(c, run, k, key)
  {
  }

  /**
   Two callers of one key that have gone on both create exactly when both looked before every save of the key,
   that is, before the first one.
   */
  lemma BothCreateExactly<V>(c: Codec<V>, run: seq<Move<V>>, i: nat, j: nat, k: nat, p: nat, q: nat)
    requires i < k <= |run| && j < k && Looks(c, run, i, p) && Looks(c, run, j, q)
    requires run[i].call.key == run[j].call.key != "" && Runs(run, i, k, p) && Runs(run, j, k, q)
    ensures var callers := WorldAt(c, run, k).callers;
            && p in callers && q in callers
            && (HasCreated(callers[p]) && HasCreated(callers[q])
                <==> forall s: nat :: s < k && Saves(c, run, s, run[i].call.key) ==> i < s && j < s)
  {
    PhasesTrue(c, run, i, k, p);
    PhasesTrue(c, run, j, k, q);
    StoredExactly(c, run, i, run[i].call.key);
    StoredExactly(c, run, j, run[i].call.key);
  }

  /** The record saved first for a key stays in the table. */
  lemma FirstSaveStays<V>(c: Codec<V>, run: seq<Move<V>>, s: nat, k: nat, key: string)
    requires s < k <= |run| && Saves(c, run, s, key) && forall m: nat :: m < s ==> !Saves(c, run, m, key)
    ensures key in WorldAt(c, run, k).table
    ensures WorldAt(c, run, k).table[key] == WorldAt(c, run, s).callers[run[s].p].record
  {
    StoredExactly(c, run, s, key);
    NeverReplaced(c, run, s + 1, k, key);
  }

  /**
   Under any interleaving, a caller that looks after the first save of its key is answered from that record: the
   code and value of the caller that saved it for the same request, an error for a different one, and no create.
   */
  lemma LateLookReplays<V(!new)>(c: Codec<V>, run: seq<Move<V>>, s: nat, i: nat, k: nat, p: nat) returns (j: nat)
    requires s < i < k <= |run| && Looks(c, run, i, p) && run[i].call.key != "" && RoundTrips(c)
    requires Saves(c, run, s, run[i].call.key) && forall m: nat :: m < s ==> !Saves(c, run, m, run[i].call.key)
    ensures j < s && Looks(c, run, j, run[s].p) && run[j].call.key == run[i].call.key
    ensures p in WorldAt(c, run, k).callers
    ensures WorldAt(c, run, k).callers[p]
         == Done(Reply(
              if c.hash(run[i].call.body) == c.hash(run[j].call.body) then run[j].call.created else None, false))
  {
    j := CallerLooked(c, run, s, run[s].p);
    PhasesTrue(c, run, j, s, run[s].p);
    FirstSaveStays(c, run, s, i, run[i].call.key);
    PhasesTrue(c, run, i, k, p);
  }

  // ---------- the shortest run in which two create ----------

  lemma {:induction false} Advance<V>(c: Codec<V>, run: seq<Move<V>>, k: nat, before: World<V>, after: World<V>)
    requires k < |run| && WorldAt(c, run, k) == before && Step(c, before, run[k]) == after
    ensures WorldAt(c, run, k + 1) == after
  {
  }

  lemma {:induction false} BothHold<V>(c: Codec<V>, run: seq<Move<V>>, a: Call<V>, b: Call<V>)
    requires a.key == b.key != "" && RecordOf(c, a).Some? && RecordOf(c, b).Some?
    requires |run| >= 4 && run[0] == Look(0, a) && run[1] == Look(1, b) && run[2] == Run(0) && run[3] == Run(1)
    ensures WorldAt(c, run, 4)
              == World(map[], map[0 := Holding(a, RecordOf(c, a).value), 1 := Holding(b, RecordOf(c, b).value)])
  {
    var looked := World(map[], map[0 := Missing(a), 1 := Missing(b)]);
    Advance(c, run, 0, World(map[], map[]), World(map[], map[0 := Missing(a)]));
    Advance(c, run, 1, World(map[], map[0 := Missing(a)]), looked);
    var created := World(map[], map[0 := Holding(a, RecordOf(c, a).value), 1 := Missing(b)]);
    Advance(c, run, 2, looked, created);
    Advance(c, run, 3, created,
      World(map[], map[0 := Holding(a, RecordOf(c, a).value), 1 := Holding(b, RecordOf(c, b).value)]));
  }

  /** Two callers that both look before either stores both create, and the later one's answer is not the stored one. */
  lemma {:induction false} BothCreate<V>(c: Codec<V>, a: Call<V>, b: Call<V>)
    requires a.key == b.key != "" && RecordOf(c, a).Some? && RecordOf(c, b).Some?
    ensures WorldAt(c, [Look(0, a), Look(1, b), Run(0), Run(1), Save(0), Save(1)], 6)
         == World(map[a.key := RecordOf(c, a).value],
                  map[0 := Done(Reply(a.created, true)), 1 := Done(Reply(b.created, true))])
  {
    var run: seq<Move<V>> := [Look(0, a), Look(1, b), Run(0), Run(1), Save(0), Save(1)];
    var table := map[a.key := RecordOf(c, a).value];
    BothHold(c, run, a, b);
    var saved := World(table, map[0 := Done(Reply(a.created, true)), 1 := Holding(b, RecordOf(c, b).value)]);
    Advance(c, run, 4, WorldAt(c, run, 4), saved);
    Advance(c, run, 5, saved, World(table, map[0 := Done(Reply(a.created, true)), 1 := Done(Reply(b.created, true))]));
  }
}
