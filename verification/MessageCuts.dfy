/** Cutting a message in two does not change what either adapter sends: the turns are those of the uncut
    conversation. */
module MessageCuts {
  import opened Prelude
  import opened Chat
  import opened Turns
  import A = AnthropicRequests
  import G = GeminiRequests

  /** The first piece of a message cut before its last parts: the calls stay with the second piece. */
  function FirstPiece(m: Message, p: seq<InPart>): Message { m.(content := Multi(p), toolCalls := []) }

  function SecondPiece(m: Message, q: seq<InPart>): Message { m.(content := Multi(q)) }

  /** A conversation with one message whole, and with that message cut in two. */
  function Whole(a: seq<Message>, m: Message, p: seq<InPart>, q: seq<InPart>, b: seq<Message>): seq<Message> {
    a + [m.(content := Multi(p + q))] + b
  }

  function Cut(a: seq<Message>, m: Message, p: seq<InPart>, q: seq<InPart>, b: seq<Message>): seq<Message> {
    a + [FirstPiece(m, p), SecondPiece(m, q)] + b
  }

  lemma CutEndsAlike(a: seq<Message>, m: Message, p: seq<InPart>, q: seq<InPart>, b: seq<Message>)
    requires b != []
    ensures var whole, cut := Whole(a, m, p, q, b), Cut(a, m, p, q, b);
            var front := b[..|b| - 1];
            && whole != [] && cut != []
            && whole[|whole| - 1] == b[|b| - 1] == cut[|cut| - 1]
            && whole[..|whole| - 1] == Whole(a, m, p, q, front) && cut[..|cut| - 1] == Cut(a, m, p, q, front)
  {
  }

  lemma CutHere(a: seq<Message>, m: Message, p: seq<InPart>, q: seq<InPart>)
    ensures Whole(a, m, p, q, []) == a + [m.(content := Multi(p + q))]
    ensures Whole(a, m, p, q, [])[..|a|] == a
    ensures var cut := Cut(a, m, p, q, []);
            && |cut| == |a| + 2 && cut[|a| + 1] == SecondPiece(m, q) && cut[..|a| + 1][|a|] == FirstPiece(m, p)
            && cut[..|a| + 1][..|a|] == a && |cut[..|a| + 1]| == |a| + 1
  {
    assert Cut(a, m, p, q, [])[..|a| + 1][..|a|] == a;
  }

  // ---------- Anthropic ----------

  lemma {:induction false} PartsSplit(p: seq<InPart>, q: seq<InPart>)
    ensures A.ConvertParts(p + q) == A.ConvertParts(p) + A.ConvertParts(q)
    decreases |q|
  {
    hide A.ConvertPart;
    if q == [] {
      assert p + q == p;
    } else {
      assert (p + q)[..|p + q| - 1] == p + q[..|q| - 1];
      PartsSplit(p, q[..|q| - 1]);
    }
  }

  lemma {:induction false} GPartsSplit(p: seq<InPart>, q: seq<InPart>)
    ensures G.ConvertParts(p + q) == G.ConvertParts(p) + G.ConvertParts(q)
    decreases |q|
  {
    hide G.ConvertPart;
    if q == [] {
      assert p + q == p;
    } else {
      assert (p + q)[..|p + q| - 1] == p + q[..|q| - 1];
      GPartsSplit(p, q[..|q| - 1]);
    }
  }

  lemma {:induction false} SameIds(a: seq<Message>, m: Message, p: seq<InPart>, q: seq<InPart>, b: seq<Message>)
    ensures A.IdsByName(Whole(a, m, p, q, b)) == A.IdsByName(Cut(a, m, p, q, b))
    ensures G.NamesById(Whole(a, m, p, q, b)) == G.NamesById(Cut(a, m, p, q, b))
    decreases |b|
  {
    hide A.IdsByCalls, G.NamesByCalls, Whole, Cut;
    if b == [] {
      CutHere(a, m, p, q);
      NoCallsNoIds(A.IdsByName(a), G.NamesById(a));
    } else {
      CutEndsAlike(a, m, p, q, b);
      SameIds(a, m, p, q, b[..|b| - 1]);
    }
  }

  lemma NoCallsNoIds(ids: map<string, string>, names: map<string, string>)
    ensures A.IdsByCalls([], ids) == ids && G.NamesByCalls([], names) == names
  {
  }

  /** The two pieces say what the whole says, and use up the same new ids. */
  lemma PiecesSayTheWhole(m: Message, p: seq<InPart>, q: seq<InPart>, ids: map<string, string>, newId: nat -> string,
                          n: nat)
    requires !IsToolResult(m)
    ensures var (t1, k) := A.ConvertMessage(FirstPiece(m, p), ids, newId, n);
            var (t2, l) := A.ConvertMessage(SecondPiece(m, q), ids, newId, k);
            A.ConvertMessage(m.(content := Multi(p + q)), ids, newId, n) == (Turn(t1.role, t1.parts + t2.parts), l)
            && t2.role == t1.role
  {
    hide A.ConvertParts, FlattenText;
    PartsSplit(p, q);
    if m.role == Assistant {
      assert A.ConvertCalls([], newId, n) == ([], n);
      var calls := A.ConvertCalls(m.toolCalls, newId, n).0;
      assert A.ConvertParts(p) + [] + (A.ConvertParts(q) + calls) == A.ConvertParts(p) + A.ConvertParts(q) + calls;
    }
  }

  lemma SpokenSplit<P>(role: Role, a: seq<P>, b: seq<P>)
    ensures Spoken(Turn(role, a + b)) == Spoken(Turn(role, a)) + Spoken(Turn(role, b))
  {
  }

  lemma {:induction false} SameWordsToAnthropic(a: seq<Message>, m: Message, p: seq<InPart>, q: seq<InPart>,
                                                b: seq<Message>, ids: map<string, string>, newId: nat -> string)
    requires !IsToolResult(m)
    ensures var (x, n) := A.ConvertAll(Whole(a, m, p, q, b), ids, newId);
            var (y, k) := A.ConvertAll(Cut(a, m, p, q, b), ids, newId);
            Flatten(x) == Flatten(y) && n == k
    decreases |b|
  {
    hide A.ConvertMessage, Flatten, Spoken, Whole, Cut;
    if b == [] {
      CutHere(a, m, p, q);
      CutSaysTheSameToAnthropic(a, m, p, q, ids, newId);
    } else {
      CutEndsAlike(a, m, p, q, b);
      var front, last := b[..|b| - 1], b[|b| - 1];
      SameWordsToAnthropic(a, m, p, q, front, ids, newId);
      var (x, n) := A.ConvertAll(Whole(a, m, p, q, front), ids, newId);
      var (y, k) := A.ConvertAll(Cut(a, m, p, q, front), ids, newId);
      var t := A.ConvertMessage(last, ids, newId, n).0;
      FlattenAppend(x, [t]);
      FlattenAppend(y, [t]);
    }
  }

  lemma CutSaysTheSameToAnthropic(a: seq<Message>, m: Message, p: seq<InPart>, q: seq<InPart>, ids: map<string, string>,
                                  newId: nat -> string)
    requires !IsToolResult(m)
    ensures var (x, n) := A.ConvertAll(Whole(a, m, p, q, []), ids, newId);
            var (y, k) := A.ConvertAll(Cut(a, m, p, q, []), ids, newId);
            Flatten(x) == Flatten(y) && n == k
  {
    hide A.ConvertMessage, Flatten, Spoken, Whole, Cut;
    CutHere(a, m, p, q);
    var (before, n) := A.ConvertAll(a, ids, newId);
    if !A.IsSystem(m) {
      PiecesSayTheWhole(m, p, q, ids, newId, n);
      var (t1, k) := A.ConvertMessage(FirstPiece(m, p), ids, newId, n);
      var t2 := A.ConvertMessage(SecondPiece(m, q), ids, newId, k).0;
      var t := Turn(t1.role, t1.parts + t2.parts);
      FlattenAppend(before, [t]);
      FlattenOne(t);
      FlattenAppend(before, [t1]);
      FlattenOne(t1);
      FlattenAppend(before + [t1], [t2]);
      FlattenOne(t2);
      SpokenSplit(t1.role, t1.parts, t2.parts);
    }
  }

  // ---------- Gemini ----------

  lemma PiecesSayTheWholeToGemini(m: Message, p: seq<InPart>, q: seq<InPart>, names: map<string, string>)
    requires !IsToolResult(m)
    ensures var t1, t2 := G.ConvertMessage(FirstPiece(m, p), names), G.ConvertMessage(SecondPiece(m, q), names);
            G.ConvertMessage(m.(content := Multi(p + q)), names) == Turn(t1.role, t1.parts + t2.parts)
            && t2.role == t1.role
  {
    hide G.ConvertParts, FlattenText, G.ResultName;
    GPartsSplit(p, q);
    if m.role == Assistant {
      var calls := G.ConvertCalls(m.toolCalls);
      assert G.ConvertParts(p) + [] + (G.ConvertParts(q) + calls) == G.ConvertParts(p) + G.ConvertParts(q) + calls;
    }
  }

  lemma {:induction false} SameWordsToGemini(a: seq<Message>, m: Message, p: seq<InPart>, q: seq<InPart>,
                                             b: seq<Message>, names: map<string, string>)
    requires !IsToolResult(m)
    ensures Flatten(G.ConvertAll(Whole(a, m, p, q, b), names)) == Flatten(G.ConvertAll(Cut(a, m, p, q, b), names))
    decreases |b|
  {
    hide G.ConvertMessage, Flatten, Spoken, Whole, Cut;
    if b == [] {
      CutHere(a, m, p, q);
      CutSaysTheSameToGemini(a, m, p, q, names);
    } else {
      CutEndsAlike(a, m, p, q, b);
      var front, last := b[..|b| - 1], b[|b| - 1];
      SameWordsToGemini(a, m, p, q, front, names);
      var t := G.ConvertMessage(last, names);
      FlattenAppend(G.ConvertAll(Whole(a, m, p, q, front), names), [t]);
      FlattenAppend(G.ConvertAll(Cut(a, m, p, q, front), names), [t]);
    }
  }

  lemma CutSaysTheSameToGemini(a: seq<Message>, m: Message, p: seq<InPart>, q: seq<InPart>, names: map<string, string>)
    requires !IsToolResult(m)
    ensures Flatten(G.ConvertAll(Whole(a, m, p, q, []), names)) == Flatten(G.ConvertAll(Cut(a, m, p, q, []), names))
  {
    hide G.ConvertMessage, Flatten, Spoken, Whole, Cut;
    CutHere(a, m, p, q);
    var before := G.ConvertAll(a, names);
    if m.role != System {
      PiecesSayTheWholeToGemini(m, p, q, names);
      var t1, t2 := G.ConvertMessage(FirstPiece(m, p), names), G.ConvertMessage(SecondPiece(m, q), names);
      var t := Turn(t1.role, t1.parts + t2.parts);
      FlattenAppend(before, [t]);
      FlattenOne(t);
      FlattenAppend(before, [t1]);
      FlattenOne(t1);
      FlattenAppend(before + [t1], [t2]);
      FlattenOne(t2);
      SpokenSplit(t1.role, t1.parts, t2.parts);
    }
  }

  // ---------- the result ----------

  /** Cutting a message of several parts in two, its calls with the second piece, gives the same turns for both
      adapters, wherever in the conversation it stands. Tool results are not cut: each answers a call as a whole. */
  lemma {:induction false} CutsDoNotMatter(a: seq<Message>, m: Message, p: seq<InPart>, q: seq<InPart>, b: seq<Message>,
                                           newId: nat -> string)
    requires !IsToolResult(m)
    ensures A.ConvertTurns(Whole(a, m, p, q, b), newId) == A.ConvertTurns(Cut(a, m, p, q, b), newId)
    ensures G.ConvertTurns(Whole(a, m, p, q, b)) == G.ConvertTurns(Cut(a, m, p, q, b))
  {
    hide Whole, Cut, Flatten, Merge, A.ConvertAll, G.ConvertAll, A.IdsByName, G.NamesById;
    var whole, cut := Whole(a, m, p, q, b), Cut(a, m, p, q, b);
    SameIds(a, m, p, q, b);
    SameWordsToAnthropic(a, m, p, q, b, A.IdsByName(whole), newId);
    MergeIgnoresCuts(A.ConvertAll(whole, A.IdsByName(whole), newId).0, A.ConvertAll(cut, A.IdsByName(cut), newId).0);
    SameWordsToGemini(a, m, p, q, b, G.NamesById(whole));
    MergeIgnoresCuts(G.ConvertAll(whole, G.NamesById(whole)), G.ConvertAll(cut, G.NamesById(cut)));
  }
}
