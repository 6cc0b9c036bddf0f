/**
 * The repetition guard's counters as pure values, shared by both StepMemory
 * variants. `Record` is what `Add` does to the counters and `Blocks` is what
 * `ShouldBlock` decides; `Replay` rebuilds the counters from the keys of every
 * recorded action, which gives `Blocks` its meaning in terms of that history.
 */
module LoopGuard {
  import opened Base
  import opened Text
  import opened LlmTypes

  /** The repetition unit: action type, page URL and target handle. */
  datatype ActionKey = ActionKey(kind: string, url: string, target: int)

  /** Size of the ring of recent keys. */
  const MaxRecent: nat := 10
  /** Length of the key windows whose occurrences are counted. */
  const PatternLen: nat := 2

  datatype Counters = Counters(
    lastKey: Option<ActionKey>,
    repeatCount: int,
    recentKeys: seq<ActionKey>,
    patternCounts: map<seq<ActionKey>, int>)

  /** The key of `action` proposed or executed on page `url`. */
  function MakeKey(url: string, action: Action): ActionKey
  {
    ActionKey(action.kind, url, action.targetId)
  }

  /** The key as text, `type|url|target`, as it appears in guard notes. */
  function KeyString(k: ActionKey): string
  {
    k.kind + KeySep + k.url + KeySep + IntToString(k.target)
  }

  const KeySep: string := "|"
  const StepField: string := "step="
  const UrlField: string := " url="
  const ActionField: string := " action="
  const TargetField: string := " target="
  const TextField: string := " text="

  /** The trace line written for one executed action: its fields, then the quoted text. */
  function StepLine(step: int, url: string, action: Action): string
  {
    StepHead(step, url, action) + Quote(action.text)
  }

  function StepHead(step: int, url: string, action: Action): string
  {
    StepField + IntToString(step) + UrlField + url + ActionField + action.kind
    + TargetField + IntToString(action.targetId) + TextField
  }

  /**
   * A trace line is one line of text whenever the URL and the action type
   * hold no newline, and it ends with the quoted text, which gives the text
   * back.
   */
  lemma StepLineOneLine(step: int, url: string, action: Action)
    requires '\n' !in url && '\n' !in action.kind
    ensures '\n' !in StepLine(step, url, action)
    ensures var q := Quote(action.text);
      var r := StepLine(step, url, action);
      |q| <= |r| && r[|r| - |q|..] == q && Unquote(q) == Some(action.text)
  {
    var q := Quote(action.text);
    var head := StepHead(step, url, action);
    var r := StepLine(step, url, action);
    assert '\n' !in head by {
      assert '\n' !in IntToString(step) && '\n' !in IntToString(action.targetId);
    }
    assert r[|r| - |q|..] == q;
    QuoteRoundTrip(action.text);
  }

  /** The window as text: the keys joined by `->`. */
  function PatternString(w: seq<ActionKey>): string
  {
    Join(KeyStrings(w), PatternSep)
  }

  function KeyStrings(w: seq<ActionKey>): (r: seq<string>)
    ensures |r| == |w| && forall i :: 0 <= i < |w| ==> r[i] == KeyString(w[i])
  {
    seq(|w|, i requires 0 <= i < |w| => KeyString(w[i]))
  }

  const PatternSep: string := "->"

  /** The text of a window of `PatternLen` keys: the two key texts around `->`. */
  lemma PatternOfPair(w: seq<ActionKey>)
    requires |w| == PatternLen
    ensures PatternString(w) == KeyString(w[0]) + PatternSep + KeyString(w[1])
  {
    var parts := KeyStrings(w);
    assert parts[1..] == [KeyString(w[1])];
    assert Join(parts[1..], PatternSep) == KeyString(w[1]);
  }

  /** A key whose action type and URL hold neither separator character. */
  predicate PlainKey(k: ActionKey)
  {
    '|' !in k.kind && '>' !in k.kind && '|' !in k.url && '>' !in k.url
  }

  /** Text cut at the first `c` on both sides: the same text means the same parts. */
  lemma SplitAtFirst<T>(a: seq<T>, b: seq<T>, a2: seq<T>, b2: seq<T>, c: T)
    requires c !in a && c !in a2
    requires a + [c] + b == a2 + [c] + b2
    ensures a == a2 && b == b2
  {
    var s := a + [c] + b;
    assert s[|a|] == c && s[|a2|] == c;
    assert a == s[..|a|] == a2;
    assert b == s[|a| + 1..] == b2;
  }

  /** A plain key's text holds no `>`. */
  lemma PlainKeyString(k: ActionKey)
    requires PlainKey(k)
    ensures '>' !in KeyString(k)
  {
    var t := IntToString(k.target);
    assert '>' !in t;
  }

  /** Distinct plain keys have distinct texts. */
  lemma KeyStringInjective(k1: ActionKey, k2: ActionKey)
    requires PlainKey(k1) && PlainKey(k2)
    requires KeyString(k1) == KeyString(k2)
    ensures k1 == k2
  {
    var t1, t2 := IntToString(k1.target), IntToString(k2.target);
    assert '|' !in t1 && '|' !in t2;
    assert KeyString(k1) == k1.kind + ['|'] + (k1.url + ['|'] + t1);
    assert KeyString(k2) == k2.kind + ['|'] + (k2.url + ['|'] + t2);
    SplitAtFirst(k1.kind, k1.url + ['|'] + t1, k2.kind, k2.url + ['|'] + t2, '|');
    SplitAtFirst(k1.url, t1, k2.url, t2, '|');
    IntToStringRoundTrip(k1.target);
    IntToStringRoundTrip(k2.target);
  }

  /** Texts free of `>` joined by `->`: the same joined text means the same texts. */
  lemma {:induction false} JoinInjective(p1: seq<string>, p2: seq<string>)
    requires |p1| == |p2|
    requires forall i :: 0 <= i < |p1| ==> '>' !in p1[i]
    requires forall i :: 0 <= i < |p2| ==> '>' !in p2[i]
    requires Join(p1, PatternSep) == Join(p2, PatternSep)
    ensures p1 == p2
  {
    if |p1| > 1 {
      var r1, r2 := Join(p1[1..], PatternSep), Join(p2[1..], PatternSep);
      assert Join(p1, PatternSep) == (p1[0] + ['-']) + ['>'] + r1;
      assert Join(p2, PatternSep) == (p2[0] + ['-']) + ['>'] + r2;
      SplitAtFirst(p1[0] + ['-'], r1, p2[0] + ['-'], r2, '>');
      assert p1[0] == (p1[0] + ['-'])[..|p1[0]|] == p2[0];
      JoinInjective(p1[1..], p2[1..]);
      assert p1 == [p1[0]] + p1[1..];
      assert p2 == [p2[0]] + p2[1..];
    }
  }

  /**
   * Windows of plain keys of one length have distinct pattern texts, so
   * counting windows by their text, as the guard does, counts the windows
   * themselves.
   */
  lemma PatternStringInjective(w1: seq<ActionKey>, w2: seq<ActionKey>)
    requires |w1| == |w2|
    requires forall i :: 0 <= i < |w1| ==> PlainKey(w1[i])
    requires forall i :: 0 <= i < |w2| ==> PlainKey(w2[i])
    requires PatternString(w1) == PatternString(w2)
    ensures w1 == w2
  {
    var p1, p2 := KeyStrings(w1), KeyStrings(w2);
    forall i | 0 <= i < |w1|
      ensures '>' !in p1[i] && '>' !in p2[i]
    {
      PlainKeyString(w1[i]);
      PlainKeyString(w2[i]);
    }
    JoinInjective(p1, p2);
    forall i | 0 <= i < |w1|
      ensures w1[i] == w2[i]
    {
      assert p1[i] == p2[i];
      KeyStringInjective(w1[i], w2[i]);
    }
  }

  /** The text of a key with a one-digit target. */
  lemma DigitKeyString(k: ActionKey)
    requires 0 <= k.target < 10
    ensures KeyString(k) == k.kind + "|" + k.url + "|" + [DigitChar(k.target)]
  {
  }

  /** Regrouping around a separator: `(a ++ x) ++ q` and `a ++ (x ++ q)` with `sep` between. */
  lemma Regroup<T>(a: seq<T>, sep: seq<T>, x: seq<T>, q: seq<T>)
    ensures (a + sep + x) + sep + q == a + sep + (x + sep + q)
  {
  }

  /**
   * Without plain keys the pattern text is ambiguous: two different windows
   * of two actions, on URLs holding `|` and `->`, share one text.
   */
  lemma PatternStringCollides()
    ensures
      var w1 := [ActionKey("c", "u", 1), ActionKey("c", "3->c|w", 2)];
      var w2 := [ActionKey("c", "u|1->c", 3), ActionKey("c", "w", 2)];
      w1 != w2 && PatternString(w1) == PatternString(w2)
  {
    var w1 := [ActionKey("c", "u", 1), ActionKey("c", "3->c|w", 2)];
    var w2 := [ActionKey("c", "u|1->c", 3), ActionKey("c", "w", 2)];
    var a, x, q := "c|u|1", "c|3", "c|w|2";
    assert KeyString(w1[0]) == a by { DigitKeyString(w1[0]); }
    assert KeyString(w1[1]) == x + PatternSep + q by { DigitKeyString(w1[1]); }
    assert KeyString(w2[0]) == a + PatternSep + x by { DigitKeyString(w2[0]); }
    assert KeyString(w2[1]) == q by { DigitKeyString(w2[1]); }
    PatternOfPair(w1);
    PatternOfPair(w2);
    Regroup(a, PatternSep, x, q);
    assert w1[0].url != w2[0].url;
  }

  const RepeatHead: string := "SYSTEM NOTE: The same action ("
  const RepeatMid: string := ") has already been executed "
  const RepeatTail: string := " times in a row. Do NOT repeat it again. Choose a different action or finish if the goal is already achieved."
  const PatternHead: string := "SYSTEM NOTE: The sequence of "
  const PatternMid: string := " actions ("
  const PatternTail: string := ") has already occurred before. Do NOT repeat this pattern. Try a different action (for example, moving to the next stage of the flow or finishing)."

  function RepeatNote(key: ActionKey, count: int): string
  {
    RepeatHead + KeyString(key) + RepeatMid + IntToString(count) + RepeatTail
  }

  function PatternNote(n: int, w: seq<ActionKey>): string
  {
    PatternHead + IntToString(n) + PatternMid + PatternString(w) + PatternTail
  }

  /** The last `n` elements of `s`, or all of it when it is shorter. */
  function Tail<T>(s: seq<T>, n: nat): (r: seq<T>)
    ensures |r| == if |s| <= n then |s| else n
    ensures forall i :: 0 <= i < |r| ==> r[i] == s[|s| - |r| + i]
  {
    if |s| > n then s[|s| - n..] else s
  }

  lemma TailAppend<T>(s: seq<T>, x: T, n: nat)
    requires n >= 1
    ensures Tail(Tail(s, n) + [x], n) == Tail(s + [x], n)
  {
  }

  function CountOf(m: map<seq<ActionKey>, int>, w: seq<ActionKey>): int
  {
    if w in m then m[w] else 0
  }

  /** One more occurrence of window `w`. */
  function Bump(m: map<seq<ActionKey>, int>, w: seq<ActionKey>): map<seq<ActionKey>, int>
  {
    m[w := CountOf(m, w) + 1]
  }

  /** Fresh counters: no last key, nothing counted. */
  function Empty(): Counters
  {
    Counters(None, 0, [], map[])
  }

  /** The counter update of one successfully executed action with key `key`. */
  function Record(c: Counters, key: ActionKey): Counters
  {
    var repeat := if c.lastKey == Some(key) then c.repeatCount + 1 else 1;
    var recent := Tail(c.recentKeys + [key], MaxRecent);
    var counts :=
      if PatternLen > 1 && |recent| >= PatternLen then Bump(c.patternCounts, recent[|recent| - PatternLen..])
      else c.patternCounts;
    Counters(Some(key), repeat, recent, counts)
  }

  /** The repeat rule: `key` is the last key and has already run `threshold` times in a row. */
  predicate RepeatHit(c: Counters, key: ActionKey, threshold: int)
  {
    threshold > 0 && c.lastKey == Some(key) && c.repeatCount >= threshold
  }

  /** The pattern rule: the last recent key followed by `key` is a window already counted. */
  predicate PatternHit(c: Counters, key: ActionKey)
  {
    PatternLen > 1 && |c.recentKeys| >= PatternLen - 1 &&
    var w := c.recentKeys[|c.recentKeys| - (PatternLen - 1)..] + [key];
    |w| == PatternLen && w in c.patternCounts && c.patternCounts[w] >= 1
  }

  /** The guard's verdict on proposing `key` given the counters `c`. */
  predicate Blocks(c: Counters, key: ActionKey, threshold: int)
  {
    RepeatHit(c, key, threshold) || PatternHit(c, key)
  }

  /** The counters after recording the keys `h` in order, starting fresh. */
  function Replay(h: seq<ActionKey>): Counters
    decreases |h|
  {
    if h == [] then Empty() else Record(Replay(h[..|h| - 1]), h[|h| - 1])
  }

  /** How many times the last key of `h` occurs at the end of `h` in a row. */
  function TrailingRun(h: seq<ActionKey>): nat
    decreases |h|
  {
    if h == [] then 0
    else if |h| >= 2 && h[|h| - 2] == h[|h| - 1] then TrailingRun(h[..|h| - 1]) + 1
    else 1
  }

  /** How many times `a` is immediately followed by `b` in `h`. */
  function PairCount(h: seq<ActionKey>, a: ActionKey, b: ActionKey): nat
    decreases |h|
  {
    if |h| < 2 then 0
    else PairCount(h[..|h| - 1], a, b) + (if h[|h| - 2] == a && h[|h| - 1] == b then 1 else 0)
  }

  /** One step of `Replay`: recording `k` after the history `h`. */
  lemma ReplayAppend(h: seq<ActionKey>, k: ActionKey)
    ensures Replay(h + [k]) == Record(Replay(h), k)
  {
    assert (h + [k])[..|h|] == h;
  }


  /** The pattern table of a history: every window of two adjacent keys, counted. */
  function PairTable(h: seq<ActionKey>): map<seq<ActionKey>, int>
    decreases |h|
  {
    if |h| < 2 then map[] else Bump(PairTable(h[..|h| - 1]), [h[|h| - 2], h[|h| - 1]])
  }

  /** The table of `h` gives, for every pair of keys, the times the first is immediately followed by the second. */
  lemma {:induction false} PairTableCounts(h: seq<ActionKey>, a: ActionKey, b: ActionKey)
    ensures CountOf(PairTable(h), [a, b]) == PairCount(h, a, b)
    decreases |h|
  {
    if |h| >= 2 {
      PairTableCounts(h[..|h| - 1], a, b);
      var w := [h[|h| - 2], h[|h| - 1]];
      assert w == [a, b] <==> h[|h| - 2] == a && h[|h| - 1] == b;
    }
  }

  /** The table holds windows of exactly two keys, each seen at least once. */
  lemma {:induction false} PairTableWindows(h: seq<ActionKey>, w: seq<ActionKey>)
    requires w in PairTable(h)
    ensures |w| == PatternLen && PairTable(h)[w] >= 1
    decreases |h|
  {
    var p := h[..|h| - 1];
    if w in PairTable(p) {
      PairTableWindows(p, w);
    }
  }

  /**
   * The counters `c` are those of the history `h`: its last key, the length
   * of its trailing run, its last ten keys, and the count of every pair.
   */
  ghost predicate Summarizes(c: Counters, h: seq<ActionKey>)
  {
    && c.lastKey == (if h == [] then None else Some(h[|h| - 1]))
    && c.repeatCount == TrailingRun(h)
    && c.recentKeys == Tail(h, MaxRecent)
    && c.patternCounts == PairTable(h)
  }

  /**
   * The guard's verdict stated on the history alone: `key` is the last key and
   * has already run `threshold` times in a row, or the pair (last key, `key`)
   * has already occurred.
   */
  predicate BlockedAfter(h: seq<ActionKey>, key: ActionKey, threshold: int)
  {
    h != [] && ((h[|h| - 1] == key && TrailingRun(h) >= threshold) || PairCount(h, h[|h| - 1], key) >= 1)
  }

  lemma RecordRun(c: Counters, h: seq<ActionKey>, k: ActionKey)
    requires c.lastKey == (if h == [] then None else Some(h[|h| - 1]))
    requires c.repeatCount == TrailingRun(h)
    ensures Record(c, k).repeatCount == TrailingRun(h + [k])
  {
    var h' := h + [k];
    assert h'[..|h'| - 1] == h;
  }

  /** The window `Record` counts: the previous key followed by the new one. */
  lemma RecordWindow(c: Counters, h: seq<ActionKey>, k: ActionKey)
    requires c.recentKeys == Tail(h, MaxRecent)
    ensures Record(c, k).patternCounts ==
      if h == [] then c.patternCounts else Bump(c.patternCounts, [h[|h| - 1], k])
  {
    if h != [] {
      var r := c.recentKeys;
      var rk := r + [k];
      var recent := Tail(rk, MaxRecent);
      assert |r| >= 1 && r[|r| - 1] == h[|h| - 1];
      assert |recent| >= 2;
      assert recent[|recent| - 1] == rk[|rk| - 1] == k;
      assert recent[|recent| - 2] == rk[|rk| - 2] == r[|r| - 1];
      assert recent[|recent| - PatternLen..] == [h[|h| - 1], k];
    }
  }

  lemma RecordCounts(c: Counters, h: seq<ActionKey>, k: ActionKey)
    requires c.recentKeys == Tail(h, MaxRecent)
    requires c.patternCounts == PairTable(h)
    ensures Record(c, k).patternCounts == PairTable(h + [k])
  {
    RecordWindow(c, h, k);
    var h' := h + [k];
    assert h'[..|h'| - 1] == h;
    if h != [] {
      assert [h'[|h'| - 2], h'[|h'| - 1]] == [h[|h| - 1], k];
    }
  }

  /** `Record` keeps the counters in step with the history. */
  lemma RecordSummarizes(c: Counters, h: seq<ActionKey>, k: ActionKey)
    requires Summarizes(c, h)
    ensures Summarizes(Record(c, k), h + [k])
  {
    RecordRun(c, h, k);
    RecordCounts(c, h, k);
    TailAppend(h, k, MaxRecent);
  }

  /** The counters of any history summarize it. */
  lemma {:induction false} ReplaySummarizes(h: seq<ActionKey>)
    ensures Summarizes(Replay(h), h)
    decreases |h|
  {
    if h != [] {
      var p := h[..|h| - 1];
      assert h == p + [h[|h| - 1]];
      ReplaySummarizes(p);
      RecordSummarizes(Replay(p), p, h[|h| - 1]);
    }
  }

  lemma RepeatHitMeaning(c: Counters, h: seq<ActionKey>, key: ActionKey, threshold: int)
    requires threshold > 0
    requires c.lastKey == (if h == [] then None else Some(h[|h| - 1]))
    requires c.repeatCount == TrailingRun(h)
    ensures RepeatHit(c, key, threshold) <==> h != [] && h[|h| - 1] == key && TrailingRun(h) >= threshold
  {
  }

  lemma PatternHitMeaning(c: Counters, h: seq<ActionKey>, key: ActionKey)
    requires c.recentKeys == Tail(h, MaxRecent)
    requires c.patternCounts == PairTable(h)
    ensures PatternHit(c, key) <==> h != [] && PairCount(h, h[|h| - 1], key) >= 1
  {
    if h != [] {
      var w := c.recentKeys[|c.recentKeys| - 1..] + [key];
      assert w == [h[|h| - 1], key];
      PairTableCounts(h, h[|h| - 1], key);
    }
  }

  /** The pair the pattern rule looks up: the last recent key, then `key`. */
  lemma LastWindow(recent: seq<ActionKey>, h: seq<ActionKey>, key: ActionKey)
    requires recent == Tail(h, MaxRecent) && |recent| >= 1
    ensures h != [] && recent[|recent| - 1..] + [key] == [h[|h| - 1], key]
  {
  }

  /** On counters that summarize `h`, `Blocks` decides exactly `BlockedAfter(h)`. */
  lemma SummaryBlocks(c: Counters, h: seq<ActionKey>, key: ActionKey, threshold: int)
    requires threshold > 0 && Summarizes(c, h)
    ensures Blocks(c, key, threshold) <==> BlockedAfter(h, key, threshold)
  {
    RepeatHitMeaning(c, h, key, threshold);
    PatternHitMeaning(c, h, key);
  }

  /**
   * The guard's verdict in terms of the history: proposing `key` is blocked
   * exactly when `key` is the last executed key and has already run
   * `threshold` times in a row, or when the pair (last key, `key`) has already
   * occurred in the history.
   */
  lemma BlocksMeaning(h: seq<ActionKey>, key: ActionKey, threshold: int)
    requires threshold > 0
    ensures Blocks(Replay(h), key, threshold) <==> BlockedAfter(h, key, threshold)
  {
    ReplaySummarizes(h);
    SummaryBlocks(Replay(h), h, key, threshold);
  }

  lemma {:induction false} PairCountAppend(h: seq<ActionKey>, x: ActionKey, a: ActionKey, b: ActionKey)
    ensures PairCount(h + [x], a, b)
         == PairCount(h, a, b) + (if h != [] && h[|h| - 1] == a && x == b then 1 else 0)
  {
    assert (h + [x])[..|h + [x]| - 1] == h;
  }

  /** Counts never decrease: a pattern once seen stays seen. */
  lemma {:induction false} PairCountGrows(h: seq<ActionKey>, more: seq<ActionKey>, a: ActionKey, b: ActionKey)
    ensures PairCount(h, a, b) <= PairCount(h + more, a, b)
    decreases |more|
  {
    if more != [] {
      var init := more[..|more| - 1];
      PairCountGrows(h, init, a, b);
      assert h + more == (h + init) + [more[|more| - 1]];
      PairCountAppend(h + init, more[|more| - 1], a, b);
    } else {
      assert h + more == h;
    }
  }

  /** A pair that occurs in `h` consists of keys of `h`. */
  lemma {:induction false} PairCountMembers(h: seq<ActionKey>, a: ActionKey, b: ActionKey)
    requires PairCount(h, a, b) >= 1
    ensures a in h && b in h
    decreases |h|
  {
    var p := h[..|h| - 1];
    if PairCount(p, a, b) >= 1 {
      PairCountMembers(p, a, b);
    }
  }

  /** Executing the same action twice makes a third proposal of it blocked, whatever the threshold. */
  lemma RepeatBlocks(h: seq<ActionKey>, a: ActionKey, threshold: int)
    ensures BlockedAfter(h + [a, a], a, threshold)
  {
    assert h + [a, a] == (h + [a]) + [a];
    PairCountAppend(h + [a], a, a, a);
  }

  /**
   * Pattern round trip: after executing A, B and A again, proposing B again
   * is blocked, because the pair (A, B) has already occurred.
   */
  lemma PatternRoundTrip(h: seq<ActionKey>, a: ActionKey, b: ActionKey, threshold: int)
    ensures BlockedAfter(h + [a, b, a], b, threshold)
  {
    assert h + [a, b] == (h + [a]) + [b];
    PairCountAppend(h + [a], b, a, b);
    assert h + [a, b, a] == (h + [a, b]) + [a];
    PairCountGrows(h + [a, b], [a], a, b);
  }

  /**
   * After executing A then B (A different from B), proposing A is blocked
   * exactly when B has already been followed by A somewhere in the history.
   */
  lemma AlternationVerdict(h: seq<ActionKey>, a: ActionKey, b: ActionKey, threshold: int)
    requires a != b
    ensures BlockedAfter(h + [a, b], a, threshold) <==> PairCount(h + [a, b], b, a) >= 1
  {
  }

  /** A key that does not occur in the history is never blocked. */
  lemma FreshKeyAllowed(h: seq<ActionKey>, key: ActionKey, threshold: int)
    requires key !in h
    ensures !BlockedAfter(h, key, threshold)
  {
    if h != [] && PairCount(h, h[|h| - 1], key) >= 1 {
      PairCountMembers(h, h[|h| - 1], key);
    }
  }

  /**
   * The repetition count is consecutive only: after any run of A, one action
   * B never seen before lets A through again.
   */
  lemma RepeatResetByNewKey(h: seq<ActionKey>, a: ActionKey, b: ActionKey, threshold: int)
    requires b != a && b !in h
    ensures !BlockedAfter(h + [b], a, threshold)
  {
    PairCountAppend(h, b, b, a);
    if PairCount(h, b, a) >= 1 {
      PairCountMembers(h, b, a);
    }
  }

  /** When no Finish key was ever recorded, no Finish proposal is blocked. */
  lemma FinishNeverBlocked(h: seq<ActionKey>, key: ActionKey, threshold: int)
    requires forall i :: 0 <= i < |h| ==> h[i].kind != Finish
    requires key.kind == Finish
    ensures !BlockedAfter(h, key, threshold)
  {
    FreshKeyAllowed(h, key, threshold);
  }
}
