/**
 * The older variant of the agent's step memory: a bounded window of history
 * lines and the repetition guard's counters, without a full history; system
 * notes are stored as given rather than trimmed.
 *
 * The ghost field `written` is every line ever appended to the window, so that
 * the window can be stated as the most recent of them.
 * The ghost field `keys` is the key of every action passed to `Add`, in order.
 * `Valid` states that the concrete counters summarize that history, so that
 * what `ShouldBlock` decides can be stated in terms of it.
 */
module LegacyMemory {
  import opened Base
  import opened Text
  import opened LlmTypes
  import opened LoopGuard

  /** The size of the line window when the caller asks for none. */
  const DefaultMaxLines: int := 5
  /** The repeat threshold when the caller asks for one of at most 1. */
  const DefaultLoopThreshold: int := 2

  class StepMemory {
    var lines: seq<string>
    const maxLines: int

    /** Every line appended to the window since construction, oldest first. */
    ghost var written: seq<string>

    var lastActionKey: Option<ActionKey>
    var repeatCount: int
    const loopThreshold: int

    var recentKeys: seq<ActionKey>
    const maxRecent: int
    const patternLen: int
    var patternCounts: map<seq<ActionKey>, int>

    var loopTriggered: bool

    /** Every key recorded by `Add`, oldest first. */
    ghost var keys: seq<ActionKey>

    /** The repetition counters as one value. */
    ghost function Guard(): Counters
      reads this
    {
      Counters(lastActionKey, repeatCount, recentKeys, patternCounts)
    }

    ghost predicate Valid()
      reads this
    {
      && maxLines >= 1 && loopThreshold >= 2
      && maxRecent == MaxRecent as int && patternLen == PatternLen as int
      && lines == Tail(written, maxLines as nat)
      && Guard() == Replay(keys)
    }

    /** `NewStepMemory`: a window of `maxLines` lines (5 if not positive) and a threshold of at least 2. */
    constructor (maxLines: int, loopThreshold: int)
      ensures Valid()
      ensures this.maxLines == (if maxLines <= 0 then DefaultMaxLines else maxLines)
      ensures this.loopThreshold == (if loopThreshold <= 1 then DefaultLoopThreshold else loopThreshold)
      ensures this.maxRecent == 10 && this.patternLen == 2
      ensures lines == [] && written == [] && keys == []
      ensures !loopTriggered
    {
      this.maxLines := if maxLines <= 0 then DefaultMaxLines else maxLines;
      this.loopThreshold := if loopThreshold <= 1 then DefaultLoopThreshold else loopThreshold;
      maxRecent := 10;
      patternLen := 2;
      lines := [];
      written := [];
      lastActionKey := None;
      repeatCount := 0;
      recentKeys := [];
      patternCounts := map[];
      loopTriggered := false;
      keys := [];
    }

    /** Appends `line` to the window, dropping the oldest lines beyond `maxLines`. */
    method AppendLine(line: string)
      requires Valid()
      modifies this`lines, this`written
      ensures Valid()
      ensures written == old(written) + [line]
      ensures lines == Tail(old(lines) + [line], maxLines as nat)
      ensures |lines| <= maxLines && lines[|lines| - 1] == line
      ensures unchanged(this`loopTriggered)
    {
      TailAppend(written, line, maxLines as nat);
      written := written + [line];
      lines := lines + [line];
      if |lines| > maxLines {
        lines := lines[|lines| - maxLines..];
      }
    }

    /** The counter update of `Add`: repeat counter, recent-key ring and window counts. */
    method RecordKey(key: ActionKey)
      requires maxRecent == MaxRecent as int && patternLen == PatternLen as int
      modifies this`lastActionKey, this`repeatCount, this`recentKeys, this`patternCounts
      ensures Guard() == Record(old(Guard()), key)
    {
      if Some(key) == lastActionKey {
        repeatCount := repeatCount + 1;
      } else {
        lastActionKey := Some(key);
        repeatCount := 1;
      }

      recentKeys := recentKeys + [key];
      if |recentKeys| > maxRecent {
        recentKeys := recentKeys[|recentKeys| - maxRecent..];
      }

      if patternLen > 1 && |recentKeys| >= patternLen {
        var start := |recentKeys| - patternLen;
        patternCounts := Bump(patternCounts, recentKeys[start..]);
      }
    }

    /**
     * Records a successfully executed `action` on page `url` at `step`: one
     * history line, and the counter update `Record` of its key.
     */
    method Add(step: int, url: string, action: Action)
      requires Valid()
      modifies this`lines, this`written, this`keys
      modifies this`lastActionKey, this`repeatCount, this`recentKeys, this`patternCounts
      ensures Valid()
      ensures written == old(written) + [StepLine(step, url, action)]
      ensures lines == Tail(old(lines) + [StepLine(step, url, action)], maxLines as nat)
      ensures keys == old(keys) + [MakeKey(url, action)]
      ensures Guard() == Record(old(Guard()), MakeKey(url, action))
      ensures unchanged(this`loopTriggered)
    {
      AppendLine(StepLine(step, url, action));
      Track(MakeKey(url, action));
    }

    /** The key side of `Add`: `key` joins the recorded keys and the counters take it in. */
    method Track(key: ActionKey)
      requires Valid()
      modifies this`keys, this`lastActionKey, this`repeatCount, this`recentKeys, this`patternCounts
      ensures Valid()
      ensures keys == old(keys) + [key]
      ensures Guard() == Record(old(Guard()), key)
      ensures unchanged(this`loopTriggered)
    {
      ReplayAppend(keys, key);
      RecordKey(key);
      keys := keys + [key];
    }

    /**
     * Whether proposing `action` on `url` must be refused, and the note that
     * says why: the same key has already run `loopThreshold` times in a row,
     * or the pair (last recorded key, this key) has already occurred.
     */
    method ShouldBlock(url: string, action: Action) returns (blocked: bool, reason: string)
      requires Valid()
      ensures blocked == BlockedAfter(keys, MakeKey(url, action), loopThreshold)
      ensures var key := MakeKey(url, action);
        blocked && keys[|keys| - 1] == key && TrailingRun(keys) >= loopThreshold ==>
          reason == RepeatNote(key, TrailingRun(keys))
      ensures var key := MakeKey(url, action);
        blocked && !(keys[|keys| - 1] == key && TrailingRun(keys) >= loopThreshold) ==>
          reason == PatternNote(2, [keys[|keys| - 1], key])
      ensures !blocked ==> reason == ""
    {
      var key := MakeKey(url, action);
      ReplaySummarizes(keys);
      SummaryBlocks(Guard(), keys, key, loopThreshold);

      if loopThreshold > 0 && lastActionKey == Some(key) && repeatCount >= loopThreshold {
        return true, RepeatNote(key, repeatCount);
      }

      if patternLen > 1 && |recentKeys| >= patternLen - 1 {
        var start := |recentKeys| - (patternLen - 1);
        var window := recentKeys[start..] + [key];
        if |window| == patternLen && window in patternCounts && patternCounts[window] >= 1 {
          LastWindow(recentKeys, keys, key);
          return true, PatternNote(patternLen, window);
        }
      }

      return false, "";
    }

    /** A note for the model; a blank one is dropped, any other is stored as given. */
    method AddSystemNote(note: string)
      requires Valid()
      modifies this`lines, this`written
      ensures Valid()
      ensures unchanged(this`loopTriggered)
      ensures TrimSpace(note) == "" ==> written == old(written) && lines == old(lines)
      ensures TrimSpace(note) != "" ==>
        written == old(written) + [note]
        && lines == Tail(old(lines) + [note], maxLines as nat)
    {
      if TrimSpace(note) == "" {
        return;
      }
      AppendLine(note);
    }

    /** The window: the last `maxLines` lines written, oldest first. */
    method HistoryLines() returns (out: seq<string>)
      requires Valid()
      ensures out == Tail(written, maxLines as nat)
    {
      out := lines;
    }

    /** The window as one text, lines separated by newlines; empty when there is none. */
    method HistoryString() returns (s: string)
      requires Valid()
      ensures s == Join(Tail(written, maxLines as nat), "\n")
      ensures written == [] ==> s == ""
    {
      var window := HistoryLines();
      if |window| == 0 {
        return "";
      }
      s := Join(window, "\n");
    }

    method MarkLoopTriggered()
      requires Valid()
      modifies this`loopTriggered
      ensures Valid() && loopTriggered
    {
      loopTriggered := true;
    }

    method LoopTriggered() returns (b: bool)
      ensures b == loopTriggered
    {
      b := loopTriggered;
    }
  }
}
