/** What a reply of either provider is billed at, in the token counts the provider reported: the same for its streamed
    and its buffered form. */
module StreamBills {
  import opened Prelude
  import opened Slots
  import opened Errors
  import opened Chunks
  import opened Sse
  import opened Retries
  import A = AnthropicStreams
  import ALaws = AnthropicStreamLaws
  import G = GeminiStreams

  /** What a drained stream is settled with: the last usage it reported (proxy.go:908-912). */
  function ReportedBy(last: Option<Usage>): CallUsage {
    match last
    case None => CallUsage(0, 0)
    case Some(u) => CallUsage(u.total, u.cached)
  }

  /** What a buffered completion is settled with (proxy.go:935-963). */
  function ReportedIn(c: Completion): CallUsage {
    CallUsage(if c.usage.total == 0 then c.usage.prompt + c.usage.completion else c.usage.total, c.usage.cached)
  }

  lemma ReaderKnowsTheReport(cs: seq<Chunk>)
    ensures HearAll(SILENCE, cs).usage == LastUsage(cs)
  {
    HeardIsWrittenAndReported(SILENCE, cs);
  }

  // ---------- Anthropic ----------

  /** Input, cache writes and output are billed, cache reads are not; without any count the reservation stands. */
  predicate AnthropicBill(u: A.RawUsage, reserved: nat, t: int) {
    if u.input + u.cacheRead + u.cacheWrite + u.output == 0 then t == reserved
    else t == u.input + u.cacheWrite + u.output
  }

  lemma AnthropicReplyIsBilled(r: A.Reply, ids: nat -> string, replyId: string, reserved: nat, t: int)
    ensures Billed(RouteChat, ReportedIn(A.ToOpenAI(r, ids, replyId)), reserved, t)
       <==> AnthropicBill(r.usage, reserved, t)
  {
    hide A.TextOf, A.CallsOf, A.MapStopReason, FirstNonEmpty;
  }

  lemma {:induction false} AnthropicStreamIsBilled(r: A.Reply, cuts: seq<seq<string>>, lines: seq<Line<A.Event>>,
                                                   broken: bool, reserved: nat, t: int)
    requires ALaws.Cuts(r.content, cuts)
    requires ALaws.Signals(lines, A.NoKind) == ALaws.Script(r, cuts)
    ensures var last := LastUsage(A.Drain(A.FRESH, Source(lines, broken, false)));
            Billed(RouteChat, ReportedBy(last), reserved, t) <==> AnthropicBill(r.usage, reserved, t)
  {
    hide A.Drain, ALaws.Signals, ALaws.Script, A.TextOf, A.CallsOf, A.MapStopReason, FirstNonEmpty, HearAll;
    var cs := A.Drain(A.FRESH, Source(lines, broken, false));
    ReaderKnowsTheReport(cs);
    ALaws.StreamMatchesReply(r, cuts, lines, broken, n => "", "");
  }

  // ---------- Gemini ----------

  /** Without any count the reservation stands; else the reported total, or prompt, answer and thoughts when there is
      none, is billed less the cached part. */
  predicate GeminiBill(m: G.Meta, reserved: nat, t: int) {
    var total := if m.total > 0 then m.total else m.prompt + m.candidates + m.thoughts;
    if total == 0 then t == reserved else if m.cached <= total then t + m.cached == total else t == 0
  }

  lemma GeminiReplyIsBilled(r: G.Response, ids: nat -> string, replyId: string, reserved: nat, t: int)
    ensures Billed(RouteChat, ReportedIn(G.ToOpenAI(r, ids, replyId)), reserved, t) <==> GeminiBill(r.meta, reserved, t)
  {
    hide G.TextOf, G.CallsOf, G.RenderAll, G.MapFinish;
  }

  predicate CountsNothing(m: G.Meta) { m.prompt == 0 && m.candidates == 0 && m.thoughts == 0 && m.total == 0 }

  lemma {:induction false} LastCountStands(rs: seq<G.Response>, i: nat)
    requires i < |rs| && !CountsNothing(rs[i].meta) && forall j | i < j < |rs| :: CountsNothing(rs[j].meta)
    ensures G.LastMeta(rs) == rs[i].meta
    decreases |rs|
  {
    if i < |rs| - 1 {
      assert CountsNothing(rs[|rs| - 1].meta);
      LastCountStands(rs[..|rs| - 1], i);
    }
  }

  lemma {:induction false} NothingCounts(rs: seq<G.Response>)
    requires forall j | 0 <= j < |rs| :: CountsNothing(rs[j].meta)
    ensures G.LastMeta(rs) == G.NO_META
  {
    if rs != [] {
      assert CountsNothing(rs[|rs| - 1].meta);
      NothingCounts(rs[..|rs| - 1]);
    }
  }

  lemma ReportedMeta(last: Option<Usage>, m: G.Meta, reserved: nat, t: int)
    requires last.GetOr(NO_USAGE) == m.AsUsage()
    ensures Billed(RouteChat, ReportedBy(last), reserved, t) <==> GeminiBill(m, reserved, t)
  {
  }

  lemma {:induction false} LastMetaIsBilled(lines: seq<Line<G.Event>>, broken: bool, ids: nat -> string,
                                            reserved: nat, t: int)
    ensures var last := LastUsage(G.Drain(G.FRESH, Source(lines, broken, false), ids));
            Billed(RouteChat, ReportedBy(last), reserved, t) <==> GeminiBill(G.LastMeta(G.Replies(lines)), reserved, t)
  {
    hide G.Drain, G.Replies, G.TextOf, G.CallsOf, G.RenderAll, G.MapFinish, G.LastMeta, G.AllParts, G.LastFinish;
    hide HearAll, LastUsage, Lists, Upgrade, G.CallsByFinish, Billed, GeminiBill;
    ReaderKnowsTheReport(G.Drain(G.FRESH, Source(lines, broken, false), ids));
    G.StreamMatchesJoined(lines, broken, ids, "");
    ReportedMeta(LastUsage(G.Drain(G.FRESH, Source(lines, broken, false), ids)), G.LastMeta(G.Replies(lines)), reserved,
                 t);
  }

  /** A Gemini stream is billed by its last reply chunk that counts anything. */
  lemma {:induction false} GeminiStreamIsBilled(lines: seq<Line<G.Event>>, broken: bool, ids: nat -> string, i: nat,
                                                reserved: nat, t: int)
    requires var rs := G.Replies(lines);
             i < |rs| && !CountsNothing(rs[i].meta) && forall j | i < j < |rs| :: CountsNothing(rs[j].meta)
    ensures var last := LastUsage(G.Drain(G.FRESH, Source(lines, broken, false), ids));
            Billed(RouteChat, ReportedBy(last), reserved, t) <==> GeminiBill(G.Replies(lines)[i].meta, reserved, t)
  {
    hide G.Drain, G.Replies, G.LastMeta, Billed, GeminiBill, LastUsage;
    LastCountStands(G.Replies(lines), i);
    LastMetaIsBilled(lines, broken, ids, reserved, t);
  }

  /** One that counts nothing is billed what was reserved. */
  lemma {:induction false} UncountedStreamIsBilled(lines: seq<Line<G.Event>>, broken: bool, ids: nat -> string,
                                                   reserved: nat, t: int)
    requires forall j | 0 <= j < |G.Replies(lines)| :: CountsNothing(G.Replies(lines)[j].meta)
    ensures var last := LastUsage(G.Drain(G.FRESH, Source(lines, broken, false), ids));
            Billed(RouteChat, ReportedBy(last), reserved, t) <==> t == reserved
  {
    hide G.Drain, G.Replies, G.LastMeta, LastUsage, Billed;
    NothingCounts(G.Replies(lines));
    LastMetaIsBilled(lines, broken, ids, reserved, t);
  }
}
