/** The in-memory limiter: counters spread over 64 shards by a hash that leaves the window out.
    Every method is proved to act on the one flat map of counters that the shards jointly hold. */
module Limiters {
  import opened Prelude
  import opened Windows
  import opened Cells

  const SHARD_COUNT: nat := 64

  /** FNV-style 64-bit hash over the bytes of a string, wrapping at 64 bits. */
  function Fnv64(s: string, h: bv64 := 14695981039346656037): bv64 {
    if s == [] then h else Fnv64(s[1..], (h ^ (s[0] as bv64)) * 1099511628211)
  }

  function LevelLength(level: Level): bv64 {
    match level
    case LevelUser => 4
    case LevelModel => 5
  }

  /** The shard of a cell. It depends on the cell alone, so all windows of a cell share one shard. */
  function ShardOf(id: CellId): (i: nat)
    ensures i < SHARD_COUNT
  {
    var h := Fnv64(id.keyHash) ^ Fnv64(id.model) ^ Fnv64(id.slot) ^ (LevelLength(id.level) << 32);
    (h & 63) as nat
  }

  class Limiter {
    var shards: seq<map<Key, Counter>>

    /** The flat map the shards represent. */
    ghost var cells: Counters

    ghost predicate Valid()
      reads this
    {
      && |shards| == SHARD_COUNT
      && (forall k :: k in cells <==> k in shards[ShardOf(k.id)])
      && (forall k | k in cells :: shards[ShardOf(k.id)][k] == cells[k])
      && (forall i, k | 0 <= i < SHARD_COUNT && k in shards[i] :: ShardOf(k.id) == i)
    }

    /** Only shard `i` may have changed. */
    twostate predicate OtherShardsKept(i: nat)
      reads this
    {
      && |shards| == |old(shards)|
      && forall j | 0 <= j < |shards| && j != i :: shards[j] == old(shards)[j]
    }

    constructor ()
      ensures Valid() && cells == map[]
    {
      hide ShardOf;
      shards := seq(SHARD_COUNT, _ => map[]);
      cells := map[];
    }

    /** Stores one counter in its shard. */
    method Put(k: Key, counter: Counter)
      requires Valid()
      modifies this
      ensures Valid() && cells == old(cells)[k := counter]
      ensures OtherShardsKept(ShardOf(k.id))
    {
      hide ShardOf;
      var i := ShardOf(k.id);
      shards := shards[i := shards[i][k := counter]];
      cells := cells[k := counter];
    }

    /** Makes sure the cell has a counter for the current bucket and returns its count. */
    method CounterFor(k: Key, now: int) returns (n: int)
      requires Valid()
      modifies this
      ensures Valid() && cells == Touch(old(cells), k, now)
      ensures n == Reading(old(cells), k, now)
      ensures OtherShardsKept(ShardOf(k.id))
    {
      hide ShardOf, Label;
      var start := Label(k.window, now);
      var sh := shards[ShardOf(k.id)];
      if k in sh && sh[k].bucket == start {
        n := sh[k].count;
        assert cells == Touch(cells, k, now);
      } else {
        n := 0;
        Put(k, Counter(start, 0));
      }
    }

    /** Takes an amount off a counter of the current bucket, never below zero. */
    method CreditCounter(k: Key, now: int, amount: int)
      requires Valid()
      modifies this
      ensures Valid() && cells == Credit(old(cells), k, now, amount)
      ensures OtherShardsKept(ShardOf(k.id))
    {
      hide ShardOf, Label;
      var sh := shards[ShardOf(k.id)];
      if k in sh && sh[k].bucket == Label(k.window, now) {
        Put(k, Counter(sh[k].bucket, Max(0, sh[k].count - amount)));
      }
    }

    /** One locked section of a reservation: reads the count and commits the increment unless it would exceed the
        limit. Returns the count it found. */
    method TryCharge(k: Key, limit: int, amount: nat, now: int) returns (n: int)
      requires Valid()
      modifies this
      ensures Valid() && OtherShardsKept(ShardOf(k.id))
      ensures n == Reading(old(cells), k, now)
      ensures cells == if n + amount > limit then Touch(old(cells), k, now)
                       else SetCount(old(cells), k, now, n + amount)
    {
      hide ShardOf, Label, Valid, Touch, Reading;
      SetAfterTouch(cells, k, now, Reading(cells, k, now) + amount);
      n := CounterFor(k, now);
      if n + amount <= limit {
        Put(k, Counter(Label(k.window, now), n + amount));
      }
    }

    /** Tests every constrained window in order and commits the increments only if all pass. */
    method CheckAndReserve(id: CellId, limits: Limits, c: Costs, now: int) returns (r: Option<Rejection>)
      requires Valid()
      modifies this
      ensures Valid() && (cells, r) == Reserve(old(cells), id, limits, c, now)
      ensures OtherShardsKept(ShardOf(id))
    {
      hide ShardOf, Rollback, AmountOf, Touch, SetCount, Reading, WindowEnd, Valid;
      var pending: seq<Charge> := [];
      var ws := WINDOWS;
      while ws != []
        invariant Valid()
        invariant Reserve(old(cells), id, limits, c, now) == Stage(cells, id, limits, c, now, ws, pending)
        invariant OtherShardsKept(ShardOf(id))
        decreases |ws|
      {
        var w := ws[0];
        var limit := LimitOf(limits, w);
        if limit.Some? {
          var amount := AmountOf(w, c);
          var n := TryCharge(Key(id, w), limit.value, amount, now);
          if n + amount > limit.value {
            RollbackCharges(id, pending, now);
            return Some(Rejection(w, limit.value, n, WindowEnd(w, now) - now));
          }
          pending := pending + [Charge(w, amount)];
        }
        ws := ws[1..];
      }
      r := None;
    }

    method RollbackCharges(id: CellId, pending: seq<Charge>, now: int)
      requires Valid()
      modifies this
      ensures Valid() && cells == Rollback(old(cells), id, pending, now)
      ensures OtherShardsKept(ShardOf(id))
    {
      hide ShardOf, Label, Credit;
      var j := 0;
      while j < |pending|
        invariant j <= |pending| && Valid()
        invariant Rollback(old(cells), id, pending, now) == Rollback(cells, id, pending[j..], now)
        invariant OtherShardsKept(ShardOf(id))
      {
        assert pending[j..][1..] == pending[j + 1..];
        CreditCounter(Key(id, pending[j].window), now, pending[j].amount);
        j := j + 1;
      }
    }

    /** Credits back a full reservation. */
    method RefundReservation(id: CellId, limits: Limits, c: Costs, now: int)
      requires Valid()
      modifies this
      ensures Valid() && cells == Refund(old(cells), id, limits, c, now)
      ensures OtherShardsKept(ShardOf(id))
    {
      hide ShardOf, Label, Credit;
      var ws := WINDOWS;
      while ws != []
        invariant Valid()
        invariant Refund(old(cells), id, limits, c, now) == RefundOver(cells, id, limits, c, now, ws)
        invariant OtherShardsKept(ShardOf(id))
        decreases |ws|
      {
        if LimitOf(limits, ws[0]).Some? {
          CreditCounter(Key(id, ws[0]), now, AmountOf(ws[0], c));
        }
        ws := ws[1..];
      }
    }

    /** Moves a counter of the current bucket by a difference, never below zero, creating it if needed. */
    method AdjustCounter(k: Key, now: int, delta: int)
      requires Valid()
      modifies this
      ensures Valid() && cells == Adjust(old(cells), k, now, delta)
      ensures OtherShardsKept(ShardOf(k.id))
    {
      hide ShardOf, Label, Valid, Touch, Reading;
      SetAfterTouch(cells, k, now, Max(0, Reading(cells, k, now) + delta));
      var n := CounterFor(k, now);
      Put(k, Counter(Label(k.window, now), Max(0, n + delta)));
    }

    /** Moves the token windows by the difference between actual and reserved usage. */
    method ReconcileTokens(id: CellId, actual: int, reserved: int, now: int)
      requires Valid()
      modifies this
      ensures Valid() && cells == Reconcile(old(cells), id, actual, reserved, now)
      ensures OtherShardsKept(ShardOf(id))
    {
      hide ShardOf, Label, Adjust;
      var delta := actual - reserved;
      if delta == 0 {
        return;
      }
      AdjustCounter(Key(id, TPM), now, delta);
      AdjustCounter(Key(id, TPD), now, delta);
    }

    method Usage(k: Key, now: int) returns (n: int)
      requires Valid()
      ensures n == Reading(cells, k, now)
    {
      hide ShardOf, Label;
      var sh := shards[ShardOf(k.id)];
      if k !in sh || sh[k].bucket != Label(k.window, now) {
        n := 0;
      } else {
        n := sh[k].count;
      }
    }

    /** Drops every counter whose bucket has rolled over, shard by shard. */
    method PurgeStale(now: int)
      requires Valid()
      modifies this
      ensures Valid() && cells == Purge(old(cells), now)
    {
      hide ShardOf, Label;
      var i := 0;
      while i < SHARD_COUNT
        invariant 0 <= i <= SHARD_COUNT && Valid()
        invariant forall k :: k in cells
                      <==> k in old(cells) && (ShardOf(k.id) < i ==> old(cells)[k].bucket == Label(k.window, now))
        invariant forall k | k in cells :: cells[k] == old(cells)[k]
      {
        PurgeShard(i, now);
        i := i + 1;
      }
    }

    method PurgeShard(i: nat, now: int)
      requires Valid() && i < SHARD_COUNT
      modifies this
      ensures Valid()
      ensures forall k :: k in cells
                  <==> k in old(cells) && (ShardOf(k.id) == i ==> old(cells)[k].bucket == Label(k.window, now))
      ensures forall k | k in cells :: cells[k] == old(cells)[k]
    {
      hide ShardOf, Label;
      var keys := shards[i].Keys;
      while keys != {}
        invariant Valid()
        invariant keys <= shards[i].Keys
        invariant forall k :: k in cells
                      <==> k in old(cells)
                           && (ShardOf(k.id) == i && k !in keys ==> old(cells)[k].bucket == Label(k.window, now))
        invariant forall k | k in cells :: cells[k] == old(cells)[k]
        decreases |keys|
      {
        var k :| k in keys;
        if shards[i][k].bucket != Label(k.window, now) {
          Drop(k);
        }
        keys := keys - {k};
      }
    }

    /** Removes one counter from its shard. */
    method Drop(k: Key)
      requires Valid() && k in cells
      modifies this
      ensures Valid() && cells == old(cells) - {k}
      ensures shards == old(shards)[ShardOf(k.id) := old(shards)[ShardOf(k.id)] - {k}]
    {
      hide ShardOf;
      var i := ShardOf(k.id);
      shards := shards[i := shards[i] - {k}];
      cells := cells - {k};
    }
  }
}
