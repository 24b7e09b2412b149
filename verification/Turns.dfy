/** Alternating turns: both adapters append each converted message to the last turn when the roles agree. */
module Turns {
  datatype Role = User | Model

  datatype Turn<P> = Turn(role: Role, parts: seq<P>)

  /** A part together with who says it. */
  datatype Said<P> = Said(role: Role, part: P)

  /** Appends a converted message to the turns so far. A message without parts is dropped. */
  function Add<P>(out: seq<Turn<P>>, t: Turn<P>): seq<Turn<P>> {
    if t.parts == [] then out
    else
      var n := |out|;
      if n > 0 && out[n - 1].role == t.role then out[n - 1 := Turn(t.role, out[n - 1].parts + t.parts)] else out + [t]
  }

  method AppendTurn<P>(turns: seq<Turn<P>>, t: Turn<P>) returns (out: seq<Turn<P>>)
    ensures out == Add(turns, t)
  {
    out := turns;
    if |t.parts| > 0 {
      var last := |turns| - 1;
      if |turns| > 0 && turns[last].role == t.role {
        out := turns[last := Turn(t.role, turns[last].parts + t.parts)];
      } else {
        out := turns + [t];
      }
    }
  }

  function Merge<P>(ts: seq<Turn<P>>): seq<Turn<P>> {
    if ts == [] then [] else Add(Merge(ts[..|ts| - 1]), ts[|ts| - 1])
  }

  lemma NothingToMerge<P>()
    ensures Merge<P>([]) == []
  {
  }

  lemma MergeOneMore<P>(ts: seq<Turn<P>>, t: Turn<P>)
    ensures Merge(ts + [t]) == Add(Merge(ts), t)
  {
    assert (ts + [t])[..|ts|] == ts;
  }

  function Spoken<P>(t: Turn<P>): (r: seq<Said<P>>)
    ensures |r| == |t.parts| && forall i | 0 <= i < |r| :: r[i] == Said(t.role, t.parts[i])
    decreases |t.parts|
  {
    if t.parts == [] then [] else [Said(t.role, t.parts[0])] + Spoken(Turn(t.role, t.parts[1..]))
  }

  /** Everything said, in order, without the turn boundaries. */
  function Flatten<P>(ts: seq<Turn<P>>): seq<Said<P>> {
    if ts == [] then [] else Spoken(ts[0]) + Flatten(ts[1..])
  }

  /** No turn is empty and no two neighbours share a role. */
  ghost predicate Alternating<P>(ts: seq<Turn<P>>) {
    && (forall i | 0 <= i < |ts| :: ts[i].parts != [])
    && (forall i | 0 <= i < |ts| - 1 :: ts[i].role != ts[i + 1].role)
  }

  lemma {:induction false} FlattenAppend<P>(a: seq<Turn<P>>, b: seq<Turn<P>>)
    ensures Flatten(a + b) == Flatten(a) + Flatten(b)
  {
    if a == [] {
      assert a + b == b;
    } else {
      assert (a + b)[1..] == a[1..] + b;
      FlattenAppend(a[1..], b);
    }
  }

  lemma FlattenOne<P>(t: Turn<P>)
    ensures Flatten([t]) == Spoken(t)
  {
    assert [t][1..] == [];
  }

  lemma {:induction false} AddKeepsOrder<P>(out: seq<Turn<P>>, t: Turn<P>)
    ensures Flatten(Add(out, t)) == Flatten(out) + Spoken(t)
    ensures Alternating(out) ==> Alternating(Add(out, t))
  {
    hide Flatten, Alternating;
    var n := |out|;
    FlattenOne(t);
    if t.parts == [] {
    } else if n > 0 && out[n - 1].role == t.role {
      AddExtends(out, t);
    } else {
      FlattenAppend(out, [t]);
      AddAlternates(out, t);
    }
  }

  lemma {:induction false} AddExtends<P>(out: seq<Turn<P>>, t: Turn<P>)
    requires out != [] && t.parts != [] && out[|out| - 1].role == t.role
    ensures Flatten(Add(out, t)) == Flatten(out) + Spoken(t)
    ensures Alternating(out) ==> Alternating(Add(out, t))
  {
    hide Flatten, Spoken;
    var n := |out|;
    var last := out[n - 1];
    var joined := Turn(t.role, last.parts + t.parts);
    assert out == out[..n - 1] + [last];
    assert Add(out, t) == out[..n - 1] + [joined];
    FlattenAppend(out[..n - 1], [last]);
    FlattenAppend(out[..n - 1], [joined]);
    FlattenOne(last);
    FlattenOne(joined);
    assert Spoken(joined) == Spoken(last) + Spoken(t);
  }

  lemma {:induction false} AddAlternates<P>(out: seq<Turn<P>>, t: Turn<P>)
    requires t.parts != [] && (out == [] || out[|out| - 1].role != t.role)
    ensures Alternating(out) ==> Alternating(Add(out, t))
  {
  }

  /** Merging yields alternating turns that say the same things in the same order. */
  lemma {:induction false} MergeNormalises<P>(ts: seq<Turn<P>>)
    ensures Alternating(Merge(ts)) && Flatten(Merge(ts)) == Flatten(ts)
    decreases |ts|
  {
    if ts != [] {
      var front := ts[..|ts| - 1];
      var last := ts[|ts| - 1];
      MergeNormalises(front);
      AddKeepsOrder(Merge(front), last);
      assert ts == front + [last];
      FlattenAppend(front, [last]);
      FlattenOne(last);
    }
  }

  /** The first turn of an alternating list is exactly the leading run of its role. */
  lemma {:induction false} FirstTurnEnds<P>(ts: seq<Turn<P>>)
    requires Alternating(ts) && ts != []
    ensures var n := |ts[0].parts|;
            && |Flatten(ts)| >= n > 0
            && (forall i | 0 <= i < n :: Flatten(ts)[i] == Said(ts[0].role, ts[0].parts[i]))
            && Flatten(ts)[n..] == Flatten(ts[1..])
            && (|Flatten(ts)| > n ==> Flatten(ts)[n].role != ts[0].role)
  {
    if |ts| > 1 {
      assert Flatten(ts[1..]) == Spoken(ts[1]) + Flatten(ts[1..][1..]);
    }
  }

  /** There is only one alternating form of what is said. */
  lemma {:induction false} AlternatingIsUnique<P>(a: seq<Turn<P>>, b: seq<Turn<P>>)
    requires Alternating(a) && Alternating(b) && Flatten(a) == Flatten(b)
    ensures a == b
    decreases |a|
  {
    if a == [] {
      if b != [] {
        FirstTurnEnds(b);
      }
    } else {
      FirstTurnEnds(a);
      if b != [] {
        FirstTurnEnds(b);
        var f := Flatten(a);
        var n, k := |a[0].parts|, |b[0].parts|;
        assert f[0].role == a[0].role == b[0].role;
        assert n == k;
        forall i | 0 <= i < n ensures a[0].parts[i] == b[0].parts[i] {
          assert f[i].part == a[0].parts[i];
        }
        assert a[0].parts == b[0].parts;
        AlternatingIsUnique(a[1..], b[1..]);
        assert a == [a[0]] + a[1..] && b == [b[0]] + b[1..];
      }
    }
  }

  /** How the input is cut into messages of one role does not matter: only what is said, and by whom, does. */
  lemma MergeIgnoresCuts<P>(a: seq<Turn<P>>, b: seq<Turn<P>>)
    requires Flatten(a) == Flatten(b)
    ensures Merge(a) == Merge(b)
  {
    MergeNormalises(a);
    MergeNormalises(b);
    AlternatingIsUnique(Merge(a), Merge(b));
  }

  /** Merging is the only way to alternate: a result is `Merge` of the input exactly when it alternates and says the
      same. */
  lemma MergeIff<P>(ts: seq<Turn<P>>, out: seq<Turn<P>>)
    ensures out == Merge(ts) <==> Alternating(out) && Flatten(out) == Flatten(ts)
  {
    MergeNormalises(ts);
    if Alternating(out) && Flatten(out) == Flatten(ts) {
      AlternatingIsUnique(out, Merge(ts));
    }
  }

  /** Where part `i` of turn `b` stands in everything said. */
  function Position<P>(ts: seq<Turn<P>>, b: nat, i: nat): nat
    requires b < |ts|
  {
    if b == 0 then i else |ts[0].parts| + Position(ts[1..], b - 1, i)
  }

  lemma {:induction false} PositionHolds<P>(ts: seq<Turn<P>>, b: nat, i: nat)
    requires b < |ts| && i < |ts[b].parts|
    ensures Position(ts, b, i) < |Flatten(ts)|
    ensures Flatten(ts)[Position(ts, b, i)] == Said(ts[b].role, ts[b].parts[i])
    decreases b
  {
    if b > 0 {
      PositionHolds(ts[1..], b - 1, i);
    }
  }

  /** Whatever is said before part `i` of turn `b` is said in that turn or an earlier one. */
  lemma {:induction false} EarlierIsInEarlierTurn<P>(ts: seq<Turn<P>>, b: nat, i: nat, p: nat) returns (a: nat, j: nat)
    requires b < |ts| && i < |ts[b].parts| && p < Position(ts, b, i)
    ensures a <= b && j < |ts[a].parts| && Position(ts, b, i) < |Flatten(ts)|
    ensures Flatten(ts)[p] == Said(ts[a].role, ts[a].parts[j])
    decreases b
  {
    PositionHolds(ts, b, i);
    var n := |ts[0].parts|;
    if p < n {
      a, j := 0, p;
    } else {
      PositionHolds(ts[1..], b - 1, i);
      a, j := EarlierIsInEarlierTurn(ts[1..], b - 1, i, p - n);
      a := a + 1;
    }
  }
}
