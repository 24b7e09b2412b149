/** The frame source both stream translators loop over (providers.go:413-489), on already split lines. */
module Sse {
  /** A line either carries no payload (separators, comments, event names), or is the end sentinel, or a payload. */
  datatype Line<T> = Blank | Sentinel | Data(data: T)

  /** What the scanner still holds. `broken` says whether reading past the last line fails rather than ends. */
  datatype Source<T> = Source(lines: seq<Line<T>>, broken: bool, done: bool)

  datatype Item<T> = Frame(data: T) | Finished | Eof | Broken

  /** One read: the next item and what is left. */
  function Pull<T>(src: Source<T>): (r: (Item<T>, Source<T>))
    ensures r.0.Frame? || r.0.Finished? ==> |r.1.lines| < |src.lines|
    decreases |src.lines|
  {
    if src.done then (Eof, src)
    else if src.lines == [] then if src.broken then (Broken, src) else (Eof, src.(done := true))
    else
      var rest := src.(lines := src.lines[1..]);
      match src.lines[0]
      case Blank => Pull(rest)
      case Sentinel => (Finished, rest.(done := true))
      case Data(d) => (Frame(d), rest)
  }

  /** Once the stream has ended or met the sentinel, every further read reports the end. */
  lemma {:induction false} EndIsSticky<T>(src: Source<T>)
    ensures Pull(src).0.Finished? || Pull(src).0.Eof? ==> Pull(Pull(src).1).0.Eof?
    ensures Pull(src).0.Broken? ==> Pull(Pull(src).1).0.Broken?
    decreases |src.lines|
  {
    if !src.done && src.lines != [] && src.lines[0].Blank? {
      EndIsSticky(src.(lines := src.lines[1..]));
    }
  }

  class SseStream<T> {
    var lines: seq<Line<T>>
    const broken: bool
    var done: bool

    constructor (lines: seq<Line<T>>, broken: bool)
      ensures Src() == Source(lines, broken, false)
    {
      this.lines, this.broken, done := lines, broken, false;
    }

    ghost function Src(): Source<T>
      reads this
    {
      Source(lines, broken, done)
    }

    method Next() returns (item: Item<T>)
      modifies this
      ensures (item, Src()) == Pull(old(Src()))
    {
      while true
        invariant Pull(Src()) == Pull(old(Src()))
        decreases |lines|
      {
        if done {
          return Eof;
        }
        if lines == [] {
          if broken {
            return Broken;
          }
          done := true;
          return Eof;
        }
        var line := lines[0];
        lines := lines[1..];
        match line {
          case Blank =>
          case Sentinel =>
            done := true;
            return Finished;
          case Data(d) =>
            return Frame(d);
        }
      }
    }
  }
}
