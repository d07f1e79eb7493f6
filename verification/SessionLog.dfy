/** The append-only session file: its records, and how a session is rebuilt from them. */
module SessionLog {
  import opened Seqs

  const COMPACTED := "[compacted]"

  /** A handler's turn carries a UUID; a summary's id is "compaction-" and a stamp,
      which no UUID is. */
  datatype TurnId = Uuid(text: string) | CompactionId(stamp: string)

  /** One exchange. `details` stands for the fields that are carried but never read here. */
  datatype Turn = Turn(turnId: TurnId, timestamp: int, user: string, assistant: string, details: int)

  /** One line. `Skipped` is a header, an empty line or a line that does not parse. */
  datatype Record =
    | Skipped
    | TurnLine(turn: Turn)
    | Compaction(ts: int, replaced: nat, summary: string)

  predicate IsSummary(t: Turn) {
    t.turnId.CompactionId?
  }

  function SummaryTurn(stamp: string, ts: int, summary: string): Turn {
    Turn(CompactionId(stamp), ts, COMPACTED, summary, 0)
  }

  /** Two summaries that differ in nothing but id and time. */
  predicate SameSummary(a: Turn, b: Turn) {
    IsSummary(a) && IsSummary(b) && a.(turnId := b.turnId, timestamp := b.timestamp) == b
  }

  /** Equal lists, except that the heads may be two renderings of one summary. */
  predicate SameTurns(a: seq<Turn>, b: seq<Turn>) {
    a == b || (|a| == |b| > 0 && SameSummary(a[0], b[0]) && a[1..] == b[1..])
  }

  function Clamp(k: nat, n: nat): nat {
    if k > n then n else k
  }

  function Apply(turns: seq<Turn>, rec: Record): seq<Turn> {
    match rec
    case Skipped => turns
    case TurnLine(t) => turns + [t]
    case Compaction(ts, k, summary) => [SummaryTurn("summary", ts, summary)] + turns[Clamp(k, |turns|)..]
  }

  function Replay(log: seq<Record>): seq<Turn> {
    if log == [] then [] else Apply(Replay(log[..|log| - 1]), log[|log| - 1])
  }

  lemma ReplaySnoc(log: seq<Record>, rec: Record)
    ensures Replay(log + [rec]) == Apply(Replay(log), rec)
    ensures RawTurns(log + [rec]) == RawTurns(log) + (if rec.TurnLine? then [rec.turn] else [])
    ensures ClampFree(log + [rec])
        <==> ClampFree(log) && (rec.Compaction? ==> 1 <= rec.replaced <= |Replay(log)|)
  {
    assert (log + [rec])[..|log|] == log;
  }

  /** Every compaction line replaces at least one turn and no more turns than there are then. */
  ghost predicate ClampFree(log: seq<Record>) {
    log == [] ||
    var init, rec := log[..|log| - 1], log[|log| - 1];
    ClampFree(init) && (rec.Compaction? ==> 1 <= rec.replaced <= |Replay(init)|)
  }

  /** The loop that rebuilds a session, line by line. */
  method LoadFromDisk(log: seq<Record>) returns (turns: seq<Turn>)
    ensures turns == Replay(log)
  {
    turns := [];
    for i := 0 to |log|
      invariant turns == Replay(log[..i])
    {
      ReplaySnoc(log[..i], log[i]);
      assert log[..i + 1] == log[..i] + [log[i]];
      match log[i] {
        case Skipped =>
        case Compaction(ts, turnsReplaced, summary) =>
          var summaryTurn := SummaryTurn("summary", ts, summary);
          var replace := turnsReplaced;
          if replace > |turns| {
            replace := |turns|;
          }
          turns := [summaryTurn] + turns[replace..];
        case TurnLine(turn) =>
          turns := turns + [turn];
      }
    }
    assert log[..|log|] == log;
  }

  /** Every turn the file holds, in order, as if no compaction had ever been recorded. */
  function RawTurns(log: seq<Record>): seq<Turn> {
    if log == [] then []
    else
      var rest := RawTurns(log[..|log| - 1]);
      var rec := log[|log| - 1];
      if rec.TurnLine? then rest + [rec.turn] else rest
  }

  /** For each entry of the replayed list, the persisted turns that it stands for:
      a turn stands for itself, a summary for all that the entries it replaced stood for. */
  ghost function Blocks(log: seq<Record>): seq<seq<Turn>> {
    if log == [] then []
    else
      var prev := Blocks(log[..|log| - 1]);
      match log[|log| - 1]
      case Skipped => prev
      case TurnLine(t) => prev + [[t]]
      case Compaction(_, k, _) =>
        var k' := Clamp(k, |prev|);
        [Concat(prev[..k'])] + prev[k'..]
  }

  ghost predicate StandsFor(entry: Turn, block: seq<Turn>) {
    block == [entry] || IsSummary(entry)
  }

  /** Conservation: whatever the file holds, expanding the summaries of the replayed list
      gives back every persisted turn exactly once and in order. */
  lemma {:induction false} Conservation(log: seq<Record>)
    ensures |Blocks(log)| == |Replay(log)|
    ensures forall i :: 0 <= i < |Replay(log)| ==> StandsFor(Replay(log)[i], Blocks(log)[i])
    ensures Concat(Blocks(log)) == RawTurns(log)
  {
    if log != [] {
      var init, rec := log[..|log| - 1], log[|log| - 1];
      Conservation(init);
      var prev := Blocks(init);
      match rec {
        case Skipped =>
        case TurnLine(t) => ConcatSnoc(prev, [t]);
        case Compaction(_, k, _) =>
          var k' := Clamp(k, |prev|);
          ConcatAppend(prev[..k'], prev[k'..]);
          assert prev[..k'] + prev[k'..] == prev;
          assert Blocks(log)[1..] == prev[k'..];
      }
    }
  }
}
