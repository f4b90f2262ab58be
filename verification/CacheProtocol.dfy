/** Any number of describe-work runs over one cache. Nothing locks them out of each other: the
    read of the cache, the call of the LLM and the write are three steps, with steps of other
    runs in between, and a write replaces an entry that has appeared meanwhile. */
module CacheProtocol {
  import opened Common
  import opened DescribeWork

  /** Where a run is with its next input: about to read the cache; about to ask, or to store an
      answer, after a read that missed at time `missed`; or given up. */
  datatype RunPc = Reading | Asking(missed: nat) | Storing(missed: nat, answer: string) | Failed

  /** A run has its own processing version, a hex digest, and its own inputs. */
  datatype Run = Run(version: string, inputs: seq<Option<string>>, texts: seq<string>, pc: RunPc)

  /** `clock` counts the steps, `written` says when an entry was last written, and `replaced`
      holds the keys whose entry has ever changed. */
  datatype State = State(cache: map<string, string>, answered: seq<Answer>, runs: map<nat, Run>,
                         clock: nat, written: map<string, nat>, replaced: set<string>)

  datatype Action =
    | Start(id: nat, version: string, inputs: seq<Option<string>>)
    | Read(id: nat, fails: bool)
    | Ask(id: nat, answer: Option<string>)
    | Store(id: nat, fails: bool, kept: bool)

  datatype Move = Blocked | To(state: State)

  function MemoryOf(s: State): Memory { Memory(s.cache, s.answered) }

  /** The run has an input to work on. */
  predicate Working(r: Run) {
    |r.texts| < |r.inputs| && r.inputs[|r.texts|].Some?
  }

  function InputOf(r: Run): string
    requires Working(r)
  {
    r.inputs[|r.texts|].value
  }

  function KeyOf(hash: string -> string, r: Run): string
    requires Working(r)
  {
    CacheKey(hash, r.version, InputOf(r))
  }

  predicate Pending(r: Run) {
    r.pc.Asking? || r.pc.Storing?
  }

  function Advance(s: State, id: nat, r: Run): State {
    s.(runs := s.runs[id := r], clock := s.clock + 1)
  }

  function Written(s: State, key: string, text: string): State {
    s.(cache := s.cache[key := text], written := s.written[key := s.clock],
       replaced := s.replaced + if key in s.cache && s.cache[key] != text then {key} else {})
  }

  function ReadStep(hash: string -> string, s: State, id: nat, fails: bool): Move {
    if id !in s.runs || !s.runs[id].pc.Reading? || |s.runs[id].texts| >= |s.runs[id].inputs| then Blocked
    else
      var r := s.runs[id];
      if !Working(r) || fails then To(Advance(s, id, r.(pc := Failed)))
      else if KeyOf(hash, r) in s.cache then To(Advance(s, id, r.(texts := r.texts + [s.cache[KeyOf(hash, r)]])))
      else To(Advance(s, id, r.(pc := Asking(s.clock))))
  }

  function AskStep(s: State, id: nat, answer: Option<string>): Move {
    if id !in s.runs || !s.runs[id].pc.Asking? || !Working(s.runs[id]) then Blocked
    else
      var r := s.runs[id];
      if answer.None? then To(Advance(s, id, r.(pc := Failed)))
      else To(Advance(s.(answered := s.answered + [Answer(PromptFor(InputOf(r)), answer.value)]), id,
                      r.(pc := Storing(r.pc.missed, answer.value))))
  }

  function StoreStep(hash: string -> string, s: State, id: nat, fails: bool, kept: bool): Move {
    if id !in s.runs || !s.runs[id].pc.Storing? || !Working(s.runs[id]) then Blocked
    else
      var r := s.runs[id];
      var t := if fails && !kept then s else Written(s, KeyOf(hash, r), r.pc.answer);
      To(Advance(t, id, if fails then r.(pc := Failed) else r.(texts := r.texts + [r.pc.answer], pc := Reading)))
  }

  function Step(hash: string -> string, s: State, a: Action): Move {
    match a
    case Start(id, version, inputs) =>
      if id in s.runs || '|' in version then Blocked else To(Advance(s, id, Run(version, inputs, [], Reading)))
    case Read(id, fails) => ReadStep(hash, s, id, fails)
    case Ask(id, answer) => AskStep(s, id, answer)
    case Store(id, fails, kept) => StoreStep(hash, s, id, fails, kept)
  }

  ghost predicate Runs(hash: string -> string, s: State, acts: seq<Action>, t: State)
    decreases |acts|
  {
    if acts == [] then s == t
    else var next := Step(hash, s, acts[0]); next.To? && Runs(hash, next.state, acts[1..], t)
  }

  function Init(): State {
    State(map[], [], map[], 0, map[], {})
  }

  ghost predicate Reachable(hash: string -> string, s: State) {
    exists acts :: Runs(hash, Init(), acts, s)
  }

  // ---------------------------------------------------------------- what every step keeps

  /** A run that waits for its answer read the cache before the entry it would replace was
      written. */
  ghost predicate InvPending(hash: string -> string, s: State, r: Run) {
    Pending(r) ==>
      && Working(r) && r.pc.missed < s.clock
      && (KeyOf(hash, r) in s.written ==> r.pc.missed < s.written[KeyOf(hash, r)])
      && (r.pc.Storing? ==> Answer(PromptFor(InputOf(r)), r.pc.answer) in s.answered)
  }

  /** The run's text `i` is an answer to its input, and the entry unless that was replaced. */
  ghost predicate InvText(hash: string -> string, s: State, r: Run, i: nat)
    requires i < |r.texts|
  {
    && i < |r.inputs| && r.inputs[i].Some?
    && Answer(PromptFor(r.inputs[i].value), r.texts[i]) in s.answered
    && var key := CacheKey(hash, r.version, r.inputs[i].value);
       key in s.cache && (s.cache[key] == r.texts[i] || key in s.replaced)
  }

  ghost predicate InvTexts(hash: string -> string, s: State, r: Run) {
    '|' !in r.version && |r.texts| <= |r.inputs| && forall i :: 0 <= i < |r.texts| ==> InvText(hash, s, r, i)
  }

  ghost predicate InvTimes(s: State) {
    s.written.Keys == s.cache.Keys && forall k :: k in s.written ==> s.written[k] < s.clock
  }

  ghost predicate InvRuns(hash: string -> string, s: State) {
    forall id {:trigger s.runs[id]} :: id in s.runs ==> InvPending(hash, s, s.runs[id]) && InvTexts(hash, s, s.runs[id])
  }

  ghost predicate Inv(hash: string -> string, s: State) {
    InvTimes(s) && Sound(MemoryOf(s), hash) && InvRuns(hash, s)
  }

  /** What a step may do to the memory: entries are not dropped, and one that changes is marked
      and written after every step so far. */
  ghost predicate Later(s: State, t: State) {
    && t.clock == s.clock + 1 && s.answered <= t.answered && s.replaced <= t.replaced
    && (forall k :: k in s.cache ==> k in t.cache && (t.cache[k] == s.cache[k] || k in t.replaced))
    && (forall k :: k in t.written ==> (k in s.written && t.written[k] == s.written[k]) || t.written[k] == s.clock)
  }

  lemma StepIsLater(hash: string -> string, s: State, a: Action)
    requires Step(hash, s, a).To?
    ensures Later(s, Step(hash, s, a).state)
  {
    hide KeyOf, InputOf, Working;
  }

  lemma InvOfOthers(hash: string -> string, s: State, t: State, r: Run)
    requires Later(s, t) && InvPending(hash, s, r) && InvTexts(hash, s, r)
    ensures InvPending(hash, t, r) && InvTexts(hash, t, r)
  {
    hide KeyOf, CacheKey;
    forall i | 0 <= i < |r.texts|
      ensures InvText(hash, t, r, i)
    {
      assert InvText(hash, s, r, i);
    }
    hide InvText;
  }

  lemma InvTextsAtAnyPc(hash: string -> string, s: State, r: Run, pc: RunPc)
    requires InvTexts(hash, s, r)
    ensures InvTexts(hash, s, r.(pc := pc))
  {
    hide CacheKey;
    var q := r.(pc := pc);
    forall i | 0 <= i < |q.texts|
      ensures InvText(hash, s, q, i)
    {
      assert InvText(hash, s, r, i);
    }
  }

  lemma InvOfNext(hash: string -> string, s: State, t: State, r: Run, text: string)
    requires Later(s, t) && InvTexts(hash, s, r) && Working(r)
    requires KeyOf(hash, r) in t.cache && t.cache[KeyOf(hash, r)] == text
    requires Answer(PromptFor(InputOf(r)), text) in t.answered
    ensures InvTexts(hash, t, r.(texts := r.texts + [text], pc := Reading))
  {
    var q := r.(texts := r.texts + [text], pc := Reading);
    hide CacheKey;
    forall i | 0 <= i < |q.texts|
      ensures InvText(hash, t, q, i)
    {
      if i < |r.texts| { assert InvText(hash, s, r, i); }
    }
  }

  lemma ReadKeepsRun(hash: string -> string, s: State, id: nat, fails: bool)
    requires GoodHash(hash) && Inv(hash, s) && ReadStep(hash, s, id, fails).To?
    ensures var t := ReadStep(hash, s, id, fails).state;
            id in t.runs && InvPending(hash, t, t.runs[id]) && InvTexts(hash, t, t.runs[id])
  {
    var r, t := s.runs[id], ReadStep(hash, s, id, fails).state;
    StepIsLater(hash, s, Read(id, fails));
    InvOfOthers(hash, s, t, r);
    if Working(r) && !fails && KeyOf(hash, r) in s.cache {
      HitIsAnAnswer(MemoryOf(s), hash, r.version, InputOf(r));
      hide Sound;
      InvOfNext(hash, s, t, r, s.cache[KeyOf(hash, r)]);
    } else {
      InvTextsAtAnyPc(hash, t, r, t.runs[id].pc);
      hide Sound, CacheKey, InvText, InvTexts;
    }
  }

  lemma AskKeepsRun(hash: string -> string, s: State, id: nat, answer: Option<string>)
    requires Inv(hash, s) && AskStep(s, id, answer).To?
    ensures var t := AskStep(s, id, answer).state;
            id in t.runs && InvPending(hash, t, t.runs[id]) && InvTexts(hash, t, t.runs[id])
  {
    hide Sound, CacheKey;
    var r, t := s.runs[id], AskStep(s, id, answer).state;
    StepIsLater(hash, s, Ask(id, answer));
    InvOfOthers(hash, s, t, r);
    InvTextsAtAnyPc(hash, t, r, t.runs[id].pc);
    hide InvText, InvTexts;
    if answer.Some? {
      assert t.answered[|t.answered| - 1] == Answer(PromptFor(InputOf(r)), answer.value);
    }
  }

  lemma StoreKeepsRun(hash: string -> string, s: State, id: nat, fails: bool, kept: bool)
    requires Inv(hash, s) && StoreStep(hash, s, id, fails, kept).To?
    ensures var t := StoreStep(hash, s, id, fails, kept).state;
            id in t.runs && InvPending(hash, t, t.runs[id]) && InvTexts(hash, t, t.runs[id])
  {
    hide Sound, CacheKey;
    var r, t := s.runs[id], StoreStep(hash, s, id, fails, kept).state;
    StepIsLater(hash, s, Store(id, fails, kept));
    InvOfOthers(hash, s, t, r);
    InvTextsAtAnyPc(hash, t, r, t.runs[id].pc);
    hide InvText, InvTexts;
    if !fails { InvOfNext(hash, s, t, r, r.pc.answer); }
  }

  lemma StepKeepsSound(hash: string -> string, s: State, a: Action)
    requires Inv(hash, s) && Step(hash, s, a).To?
    ensures Sound(MemoryOf(Step(hash, s, a).state), hash)
  {
    var t := Step(hash, s, a).state;
    StepIsLater(hash, s, a);
    forall k | k in t.cache
      ensures EntryAnswers(MemoryOf(t), hash, k)
    {
      if k in s.cache && t.cache[k] == s.cache[k] {
        assert EntryAnswers(MemoryOf(s), hash, k);
        var v, i :| '|' !in v && k == CacheKey(hash, v, i) && Answer(PromptFor(i), s.cache[k]) in s.answered;
        assert Answer(PromptFor(i), t.cache[k]) in t.answered;
      } else {
        NewEntryAnswers(hash, s, a, k);
      }
    }
  }

  lemma NewEntryAnswers(hash: string -> string, s: State, a: Action, k: string)
    requires InvRuns(hash, s) && Step(hash, s, a).To?
    requires var t := Step(hash, s, a).state; k in t.cache && !(k in s.cache && t.cache[k] == s.cache[k])
    ensures EntryAnswers(MemoryOf(Step(hash, s, a).state), hash, k)
  {
    hide CacheKey, InvText;
    var r := s.runs[a.id];
    assert k == CacheKey(hash, r.version, InputOf(r));
  }

  lemma StepKeepsInv(hash: string -> string, s: State, a: Action)
    requires GoodHash(hash) && Inv(hash, s) && Step(hash, s, a).To?
    ensures Inv(hash, Step(hash, s, a).state)
  {
    var t := Step(hash, s, a).state;
    StepIsLater(hash, s, a);
    StepKeepsSound(hash, s, a);
    StepKeepsTimes(hash, s, a);
    OwnRun(hash, s, a);
    OtherRuns(hash, s, a);
    hide Later, InvTimes, Sound, InvPending, InvTexts, Step;
    forall id | id in t.runs
      ensures InvPending(hash, t, t.runs[id]) && InvTexts(hash, t, t.runs[id])
    {
      if id != a.id { InvOfOthers(hash, s, t, s.runs[id]); }
    }
  }

  lemma OtherRuns(hash: string -> string, s: State, a: Action)
    requires Step(hash, s, a).To?
    ensures var t := Step(hash, s, a).state;
            a.id in t.runs && forall id :: id != a.id && id in t.runs ==> id in s.runs && t.runs[id] == s.runs[id]
  {
    hide KeyOf, InputOf, Working;
  }

  lemma StepKeepsTimes(hash: string -> string, s: State, a: Action)
    requires InvTimes(s) && Step(hash, s, a).To?
    ensures InvTimes(Step(hash, s, a).state)
  {
    hide KeyOf, InputOf, Working;
  }

  lemma OwnRun(hash: string -> string, s: State, a: Action)
    requires GoodHash(hash) && Inv(hash, s) && Step(hash, s, a).To?
    ensures var t := Step(hash, s, a).state;
            a.id in t.runs && InvPending(hash, t, t.runs[a.id]) && InvTexts(hash, t, t.runs[a.id])
  {
    match a {
      case Start(id, version, inputs) => hide InvTimes, Sound, InvRuns;
      case Read(id, fails) => ReadKeepsRun(hash, s, id, fails); hide Inv, ReadStep;
      case Ask(id, answer) => AskKeepsRun(hash, s, id, answer); hide Inv, AskStep;
      case Store(id, fails, kept) => StoreKeepsRun(hash, s, id, fails, kept); hide Inv, StoreStep;
    }
  }

  lemma {:induction false} RunKeepsInv(hash: string -> string, s: State, acts: seq<Action>, t: State)
    requires GoodHash(hash) && Inv(hash, s) && Runs(hash, s, acts, t)
    ensures Inv(hash, t)
    decreases |acts|
  {
    hide Inv, Step, GoodHash;
    if acts != [] {
      StepKeepsInv(hash, s, acts[0]);
      RunKeepsInv(hash, Step(hash, s, acts[0]).state, acts[1..], t);
    }
  }

  lemma ReachableInv(hash: string -> string, s: State)
    requires GoodHash(hash) && Reachable(hash, s)
    ensures Inv(hash, s)
  {
    var acts :| Runs(hash, Init(), acts, s);
    assert Inv(hash, Init());
    RunKeepsInv(hash, Init(), acts, s);
  }

  // ---------------------------------------------------------------- the theorems

  /** However runs overlap and whatever fails: every entry is an answer the LLM has given to its
      key's prompt, and every text of every run an answer to that run's own input. */
  lemma EverythingIsAnswered(hash: string -> string, s: State, id: nat, i: nat)
    requires GoodHash(hash) && Reachable(hash, s)
    ensures Sound(MemoryOf(s), hash)
    ensures id in s.runs && i < |s.runs[id].texts| ==>
      i < |s.runs[id].inputs| && s.runs[id].inputs[i].Some?
      && Answer(PromptFor(s.runs[id].inputs[i].value), s.runs[id].texts[i]) in s.answered
  {
    ReachableInv(hash, s);
    hide Reachable, Sound, GoodHash;
    if id in s.runs && i < |s.runs[id].texts| { assert InvText(hash, s, s.runs[id], i); }
  }

  /** A write under `key`, with another text than the entry has, by a run whose own read missed
      before that entry was written. */
  predicate LateWrite(hash: string -> string, s: State, a: Action, key: string) {
    && a.Store? && (!a.fails || a.kept) && a.id in s.runs
    && var r := s.runs[a.id];
       r.pc.Storing? && Working(r) && KeyOf(hash, r) == key
       && key in s.cache && r.pc.answer != s.cache[key]
       && key in s.written && r.pc.missed < s.written[key]
  }

  /** Entries are never dropped, and one changes at a step if and only if that step is a late
      write. */
  lemma EntryChangesIffLateWrite(hash: string -> string, s: State, a: Action, key: string)
    requires GoodHash(hash) && Reachable(hash, s) && Step(hash, s, a).To? && key in s.cache
    ensures var t := Step(hash, s, a).state;
            key in t.cache && (t.cache[key] != s.cache[key] <==> LateWrite(hash, s, a, key))
  {
    ReachableInv(hash, s);
    hide Reachable, Sound, GoodHash, CacheKey, InvTexts;
    if a.Store? { assert InvPending(hash, s, s.runs[a.id]); }
  }

  // ---------------------------------------------------------------- when an entry is final

  /** The run is on its way to write another text under `key`, or may be. */
  predicate Threatens(hash: string -> string, s: State, r: Run, key: string) {
    && Pending(r) && Working(r) && KeyOf(hash, r) == key
    && (r.pc.Storing? ==> key !in s.cache || r.pc.answer != s.cache[key])
  }

  ghost predicate Threatened(hash: string -> string, s: State, key: string) {
    exists id :: id in s.runs && Threatens(hash, s, s.runs[id], key)
  }

  ghost predicate Final(hash: string -> string, s: State, key: string, text: string) {
    key in s.cache && s.cache[key] == text && !Threatened(hash, s, key)
  }

  lemma StepKeepsFinal(hash: string -> string, s: State, a: Action, key: string, text: string)
    requires Final(hash, s, key, text) && Step(hash, s, a).To?
    ensures Final(hash, Step(hash, s, a).state, key, text)
  {
    var t := Step(hash, s, a).state;
    OtherRuns(hash, s, a);
    hide CacheKey;
    assert a.id in s.runs ==> !Threatens(hash, s, s.runs[a.id], key);
    assert t.cache[key] == text;
    forall id | id in t.runs
      ensures !Threatens(hash, t, t.runs[id], key)
    {
      assert id in s.runs ==> !Threatens(hash, s, s.runs[id], key);
    }
  }

  lemma {:induction false} FinalStays(hash: string -> string, s: State, acts: seq<Action>, t: State, key: string,
                                      text: string)
    requires Final(hash, s, key, text) && Runs(hash, s, acts, t)
    ensures Final(hash, t, key, text)
    decreases |acts|
  {
    hide Final, Step;
    if acts != [] {
      StepKeepsFinal(hash, s, acts[0], key, text);
      FinalStays(hash, Step(hash, s, acts[0]).state, acts[1..], t, key, text);
    }
  }

  /** A run that threatens an entry can replace it. */
  lemma ThreatIsReal(hash: string -> string, s: State, id: nat, key: string) returns (acts: seq<Action>, t: State)
    requires id in s.runs && Threatens(hash, s, s.runs[id], key) && key in s.cache
    ensures Runs(hash, s, acts, t) && key in t.cache && t.cache[key] != s.cache[key]
  {
    hide CacheKey;
    if s.runs[id].pc.Storing? {
      t := StoreStep(hash, s, id, false, false).state;
      acts := [Store(id, false, false)];
      assert acts[1..] == [] && Runs(hash, t, [], t);
    } else {
      var other := s.cache[key] + "x";
      var m := AskStep(s, id, Some(other)).state;
      t := StoreStep(hash, m, id, false, false).state;
      acts := [Ask(id, Some(other)), Store(id, false, false)];
      assert Runs(hash, t, [], t) && acts[1..][1..] == [];
      assert Runs(hash, m, acts[1..], t);
    }
  }

  /** An entry stays as it is in every continuation if and only if no run is between a read that
      missed it and the write of another text. */
  lemma EntryStaysIffNotThreatened(hash: string -> string, s: State, key: string)
    requires key in s.cache
    ensures (forall acts, t :: Runs(hash, s, acts, t) ==> key in t.cache && t.cache[key] == s.cache[key])
      <==> !Threatened(hash, s, key)
  {
    hide Runs, Threatens;
    if Threatened(hash, s, key) {
      var id :| id in s.runs && Threatens(hash, s, s.runs[id], key);
      var acts, t := ThreatIsReal(hash, s, id, key);
    } else {
      forall acts, t | Runs(hash, s, acts, t)
        ensures key in t.cache && t.cache[key] == s.cache[key]
      {
        FinalStays(hash, s, acts, t, key, s.cache[key]);
      }
    }
  }

  // ---------------------------------------------------------------- repeating a run

  ghost predicate FinalAt(hash: string -> string, s: State, version: string, inputs: seq<Option<string>>,
                          texts: seq<string>, i: nat)
    requires i < |inputs| == |texts|
  {
    inputs[i].Some? && Final(hash, s, CacheKey(hash, version, inputs[i].value), texts[i])
  }

  /** The texts are the entries of the inputs, for good. */
  ghost predicate Settled(hash: string -> string, s: State, version: string, inputs: seq<Option<string>>,
                          texts: seq<string>) {
    |texts| == |inputs| && forall i :: 0 <= i < |inputs| ==> FinalAt(hash, s, version, inputs, texts, i)
  }

  lemma StepKeepsSettled(hash: string -> string, s: State, a: Action, version: string, inputs: seq<Option<string>>,
                         texts: seq<string>)
    requires Settled(hash, s, version, inputs, texts) && Step(hash, s, a).To?
    ensures Settled(hash, Step(hash, s, a).state, version, inputs, texts)
  {
    hide Step, CacheKey, Final;
    forall i | 0 <= i < |inputs|
      ensures FinalAt(hash, Step(hash, s, a).state, version, inputs, texts, i)
    {
      assert FinalAt(hash, s, version, inputs, texts, i);
      StepKeepsFinal(hash, s, a, CacheKey(hash, version, inputs[i].value), texts[i]);
    }
  }

  /** The run has not been started, or repeats the texts so far without having asked. */
  ghost predicate Repeats(s: State, id: nat, version: string, inputs: seq<Option<string>>, texts: seq<string>) {
    id in s.runs && s.runs[id].version == version && s.runs[id].inputs == inputs ==>
      !Pending(s.runs[id]) && s.runs[id].texts <= texts
  }

  /** The run's next step reads the entry: it neither asks nor differs. */
  lemma NextRepeats(hash: string -> string, s: State, a: Action, r: Run, texts: seq<string>)
    requires a.id in s.runs && s.runs[a.id] == r && Step(hash, s, a).To?
    requires Settled(hash, s, r.version, r.inputs, texts) && !Pending(r) && r.texts <= texts
    ensures var t := Step(hash, s, a).state;
            a.id in t.runs && !Pending(t.runs[a.id]) && t.runs[a.id].texts <= texts
  {
    hide CacheKey, Threatened;
    if |r.texts| < |r.inputs| {
      assert FinalAt(hash, s, r.version, r.inputs, texts, |r.texts|);
      assert texts[..|r.texts| + 1] == r.texts + [texts[|r.texts|]];
    }
    hide Settled;
  }

  lemma StepKeepsRepeats(hash: string -> string, s: State, a: Action, id: nat, version: string,
                         inputs: seq<Option<string>>, texts: seq<string>)
    requires Settled(hash, s, version, inputs, texts) && Repeats(s, id, version, inputs, texts) && Step(hash, s, a).To?
    ensures Repeats(Step(hash, s, a).state, id, version, inputs, texts)
  {
    OtherRuns(hash, s, a);
    if a.id == id {
      if id in s.runs { RunKeepsNature(hash, s, a); } else { StartsClean(hash, s, a); }
      if id in s.runs && s.runs[id].version == version && s.runs[id].inputs == inputs {
        NextRepeats(hash, s, a, s.runs[id], texts);
      }
    }
    hide Step, Settled;
  }

  lemma RunKeepsNature(hash: string -> string, s: State, a: Action)
    requires a.id in s.runs && Step(hash, s, a).To?
    ensures var t := Step(hash, s, a).state;
            a.id in t.runs && t.runs[a.id].version == s.runs[a.id].version && t.runs[a.id].inputs == s.runs[a.id].inputs
  {
    hide KeyOf, InputOf, Working;
  }

  lemma StartsClean(hash: string -> string, s: State, a: Action)
    requires a.id !in s.runs && Step(hash, s, a).To?
    ensures var t := Step(hash, s, a).state; a.id in t.runs && t.runs[a.id].texts == [] && t.runs[a.id].pc.Reading?
  {
  }

  /** Once a run's texts are settled, a run that starts later with the same version and inputs
      makes no LLM call and gives the same texts, whatever else goes on. */
  lemma {:induction false} RepeatIsIdentical(hash: string -> string, s: State, acts: seq<Action>, t: State, id: nat,
                                             version: string, inputs: seq<Option<string>>, texts: seq<string>)
    requires Settled(hash, s, version, inputs, texts) && Repeats(s, id, version, inputs, texts)
      && Runs(hash, s, acts, t)
    ensures Repeats(t, id, version, inputs, texts) && Settled(hash, t, version, inputs, texts)
    decreases |acts|
  {
    hide Settled, Repeats, Step;
    if acts != [] {
      StepKeepsSettled(hash, s, acts[0], version, inputs, texts);
      StepKeepsRepeats(hash, s, acts[0], id, version, inputs, texts);
      RepeatIsIdentical(hash, Step(hash, s, acts[0]).state, acts[1..], t, id, version, inputs, texts);
    }
  }

  lemma {:induction false} RunsThen(hash: string -> string, s: State, acts: seq<Action>, t: State, a: Action)
    requires Runs(hash, s, acts, t) && Step(hash, t, a).To?
    ensures Runs(hash, s, acts + [a], Step(hash, t, a).state)
    decreases |acts|
  {
    hide Step;
    var u := Step(hash, t, a).state;
    assert Runs(hash, u, [], u);
    if acts == [] {
      assert ([] + [a])[1..] == [];
    } else {
      RunsThen(hash, Step(hash, s, acts[0]).state, acts[1..], t, a);
      assert (acts + [a])[1..] == acts[1..] + [a];
    }
  }

  lemma {:induction false} FreshId(ids: set<nat>) returns (id: nat)
    ensures forall k :: k in ids ==> k < id
  {
    if ids == {} {
      id := 0;
    } else {
      var k :| k in ids;
      var below := FreshId(ids - {k});
      id := if k < below then below else k + 1;
      assert ids == (ids - {k}) + {k};
    }
  }

  /** Every input has an entry. */
  ghost predicate AllEntered(hash: string -> string, cache: map<string, string>, version: string,
                             inputs: seq<Option<string>>) {
    forall i :: 0 <= i < |inputs| ==> inputs[i].Some? && CacheKey(hash, version, inputs[i].value) in cache
  }

  /** A run whose inputs all have entries can go on reading them one after the other. */
  lemma {:induction false} ReadsEntries(hash: string -> string, s: State, id: nat, n: nat)
    returns (acts: seq<Action>, t: State)
    requires id in s.runs && s.runs[id].texts == [] && s.runs[id].pc.Reading? && n <= |s.runs[id].inputs|
    requires AllEntered(hash, s.cache, s.runs[id].version, s.runs[id].inputs)
    ensures Runs(hash, s, acts, t) && t.cache == s.cache && id in t.runs
    ensures var q := t.runs[id]; q == s.runs[id].(texts := q.texts) && |q.texts| == n
    ensures forall i :: 0 <= i < n ==>
      t.runs[id].texts[i] == s.cache[CacheKey(hash, s.runs[id].version, s.runs[id].inputs[i].value)]
  {
    hide CacheKey;
    if n == 0 {
      acts, t := [], s;
    } else {
      var before, m := ReadsEntries(hash, s, id, n - 1);
      RunsThen(hash, s, before, m, Read(id, false));
      acts, t := before + [Read(id, false)], ReadStep(hash, m, id, false).state;
      hide Runs;
    }
  }

  lemma {:induction false} RunsOn(hash: string -> string, s: State, acts: seq<Action>, t: State, more: seq<Action>,
                                  u: State)
    requires Runs(hash, s, acts, t) && Runs(hash, t, more, u)
    ensures Runs(hash, s, acts + more, u)
    decreases |acts|
  {
    hide Step;
    if acts == [] {
      assert [] + more == more;
    } else {
      RunsOn(hash, Step(hash, s, acts[0]).state, acts[1..], t, more, u);
      assert (acts + more)[1..] == acts[1..] + more;
    }
  }

  /** A run that starts now finds the entry, so it differs where the entry does. */
  lemma DifferentEntryShows(hash: string -> string, s: State, id: nat, version: string, inputs: seq<Option<string>>,
                            texts: seq<string>, i: nat) returns (acts: seq<Action>, t: State)
    requires id !in s.runs && '|' !in version && AllEntered(hash, s.cache, version, inputs)
    requires i < |inputs| == |texts| && s.cache[CacheKey(hash, version, inputs[i].value)] != texts[i]
    ensures Runs(hash, s, acts, t) && !Repeats(t, id, version, inputs, texts)
  {
    hide CacheKey;
    var started := Step(hash, s, Start(id, version, inputs)).state;
    assert Runs(hash, started, [], started);
    assert ([Start(id, version, inputs)])[1..] == [];
    assert Runs(hash, s, [Start(id, version, inputs)], started);
    hide Runs, Step;
    var more, u := ReadsEntries(hash, started, id, i + 1);
    RunsOn(hash, s, [Start(id, version, inputs)], started, more, u);
    acts, t := [Start(id, version, inputs)] + more, u;
    assert t.runs[id].texts[i] != texts[i];
  }

  lemma {:induction false} EntriesAreKept(hash: string -> string, s: State, acts: seq<Action>, t: State)
    requires Runs(hash, s, acts, t)
    ensures s.cache.Keys <= t.cache.Keys
    decreases |acts|
  {
    hide Step;
    if acts != [] {
      StepIsLater(hash, s, acts[0]);
      EntriesAreKept(hash, Step(hash, s, acts[0]).state, acts[1..], t);
    }
  }

  /** If a text is not the entry, or may be replaced, some repeat shows it. */
  lemma UnsettledShows(hash: string -> string, s: State, version: string, inputs: seq<Option<string>>,
                       texts: seq<string>, i: nat)
      returns (acts: seq<Action>, t: State, id: nat)
    requires |texts| == |inputs| && '|' !in version && AllEntered(hash, s.cache, version, inputs)
    requires i < |inputs| && !FinalAt(hash, s, version, inputs, texts, i)
    ensures id !in s.runs && Runs(hash, s, acts, t) && !Repeats(t, id, version, inputs, texts)
  {
    hide Repeats, CacheKey, Runs, Threatens;
    var key := CacheKey(hash, version, inputs[i].value);
    if s.cache[key] != texts[i] {
      id := FreshId(s.runs.Keys);
      acts, t := DifferentEntryShows(hash, s, id, version, inputs, texts, i);
    } else {
      var other :| other in s.runs && Threatens(hash, s, s.runs[other], key);
      var first, m := ThreatIsReal(hash, s, other, key);
      id := FreshId(s.runs.Keys + m.runs.Keys);
      EntriesAreKept(hash, s, first, m);
      var more, u := DifferentEntryShows(hash, m, id, version, inputs, texts, i);
      RunsOn(hash, s, first, m, more, u);
      acts, t := first + more, u;
    }
  }

  /** Every later run with the same version and inputs gives the texts without an LLM call, in
      every continuation, if and only if the texts are settled. */
  lemma AlwaysRepeatsIffSettled(hash: string -> string, s: State, version: string, inputs: seq<Option<string>>,
                                texts: seq<string>)
    requires |texts| == |inputs| && '|' !in version && AllEntered(hash, s.cache, version, inputs)
    ensures (forall acts, t, id :: id !in s.runs && Runs(hash, s, acts, t) ==> Repeats(t, id, version, inputs, texts))
      <==> Settled(hash, s, version, inputs, texts)
  {
    hide Runs, CacheKey, FinalAt, AllEntered;
    if Settled(hash, s, version, inputs, texts) {
      forall acts, t, id | id !in s.runs && Runs(hash, s, acts, t)
        ensures Repeats(t, id, version, inputs, texts)
      {
        RepeatIsIdentical(hash, s, acts, t, id, version, inputs, texts);
      }
    } else {
      var i :| 0 <= i < |inputs| && !FinalAt(hash, s, version, inputs, texts, i);
      var acts, t, id := UnsettledShows(hash, s, version, inputs, texts, i);
    }
  }

  /** A finished run is settled when no late write has replaced one of its entries and no run
      threatens one. */
  lemma FinishedIsSettled(hash: string -> string, s: State, id: nat)
    requires GoodHash(hash) && Reachable(hash, s) && id in s.runs && |s.runs[id].texts| == |s.runs[id].inputs|
    requires forall i :: 0 <= i < |s.runs[id].inputs| && s.runs[id].inputs[i].Some? ==>
      var key := CacheKey(hash, s.runs[id].version, s.runs[id].inputs[i].value);
      key !in s.replaced && !Threatened(hash, s, key)
    ensures Settled(hash, s, s.runs[id].version, s.runs[id].inputs, s.runs[id].texts)
  {
    ReachableInv(hash, s);
    hide Reachable, Sound, GoodHash, CacheKey, Threatened;
    var r := s.runs[id];
    forall i | 0 <= i < |r.inputs|
      ensures FinalAt(hash, s, r.version, r.inputs, r.texts, i)
    {
      assert InvText(hash, s, r, i);
    }
  }

  /** A finished run has entries for all its inputs, and a version without the separator. */
  lemma FinishedIsEntered(hash: string -> string, s: State, id: nat)
    requires GoodHash(hash) && Reachable(hash, s) && id in s.runs && |s.runs[id].texts| == |s.runs[id].inputs|
    ensures '|' !in s.runs[id].version && AllEntered(hash, s.cache, s.runs[id].version, s.runs[id].inputs)
  {
    ReachableInv(hash, s);
    hide Reachable, Sound, GoodHash, CacheKey;
    var r := s.runs[id];
    forall i | 0 <= i < |r.inputs|
      ensures r.inputs[i].Some? && CacheKey(hash, r.version, r.inputs[i].value) in s.cache
    {
      assert InvText(hash, s, r, i);
    }
  }

  /** So for a finished run: every later run with its version and inputs repeats its texts without
      a call, in every continuation, if and only if they are settled. */
  lemma FinishedRepeatsIffSettled(hash: string -> string, s: State, id: nat)
    requires GoodHash(hash) && Reachable(hash, s) && id in s.runs && |s.runs[id].texts| == |s.runs[id].inputs|
    ensures var r := s.runs[id];
            (forall acts, t, other :: other !in s.runs && Runs(hash, s, acts, t) ==>
               Repeats(t, other, r.version, r.inputs, r.texts))
            <==> Settled(hash, s, r.version, r.inputs, r.texts)
  {
    FinishedIsEntered(hash, s, id);
    hide Reachable, GoodHash, AllEntered, Runs, Repeats, Settled;
    AlwaysRepeatsIffSettled(hash, s, s.runs[id].version, s.runs[id].inputs, s.runs[id].texts);
  }

  lemma ReachesNext(hash: string -> string, s: State, a: Action)
    requires Reachable(hash, s) && Step(hash, s, a).To?
    ensures Reachable(hash, Step(hash, s, a).state)
  {
    hide Step;
    var acts :| Runs(hash, Init(), acts, s);
    RunsThen(hash, Init(), acts, s, a);
  }

  const ONE_INPUT: seq<Option<string>> := [Some("i")]

  lemma BothMiss(hash: string -> string) returns (s: State)
    ensures Reachable(hash, s) && s.cache == map[] && s.runs.Keys == {0, 1}
    ensures s.runs[0] == Run("v", ONE_INPUT, [], Asking(2)) && s.runs[1] == Run("v", ONE_INPUT, [], Asking(3))
  {
    hide CacheKey, Runs;
    assert Reachable(hash, Init()) by { assert Runs(hash, Init(), [], Init()) by { NoSteps(hash, Init()); } }
    hide Reachable;
    ReachesNext(hash, Init(), Start(0, "v", ONE_INPUT));
    var s1 := Step(hash, Init(), Start(0, "v", ONE_INPUT)).state;
    ReachesNext(hash, s1, Start(1, "v", ONE_INPUT));
    var s2 := Step(hash, s1, Start(1, "v", ONE_INPUT)).state;
    ReachesNext(hash, s2, Read(0, false));
    var s3 := ReadStep(hash, s2, 0, false).state;
    ReachesNext(hash, s3, Read(1, false));
    s := ReadStep(hash, s3, 1, false).state;
  }

  lemma NoSteps(hash: string -> string, s: State)
    ensures Runs(hash, s, [], s)
  {
  }

  /** A run that waits for its answer to its one input gets `text` and stores it. */
  lemma Answered(hash: string -> string, s: State, id: nat, missed: nat, text: string) returns (t: State)
    requires Reachable(hash, s) && id in s.runs && s.runs[id] == Run("v", ONE_INPUT, [], Asking(missed))
    ensures Reachable(hash, t) && t.cache == s.cache[CacheKey(hash, "v", "i") := text]
    ensures t.runs == s.runs[id := Run("v", ONE_INPUT, [text], Reading)]
  {
    hide CacheKey, Reachable;
    ReachesNext(hash, s, Ask(id, Some(text)));
    var m := AskStep(s, id, Some(text)).state;
    ReachesNext(hash, m, Store(id, false, false));
    t := StoreStep(hash, m, id, false, false).state;
    var none: seq<string> := [];
    assert none + [text] == [text];
  }

  /** Two runs that overlap on one input: both read before either writes, the second write
      replaces the first, and a repeat of the first run gives the other's text. */
  lemma OverlappingRunsReplace(hash: string -> string) returns (s: State)
    ensures Reachable(hash, s)
    ensures {0, 1, 2} <= s.runs.Keys && s.runs[0].version == s.runs[2].version && s.runs[0].inputs == s.runs[2].inputs
    ensures s.runs[0].texts == ["x"] && s.runs[1].texts == ["y"] && s.runs[2].texts == ["y"]
  {
    hide CacheKey, Reachable;
    var s0 := BothMiss(hash);
    var s1 := Answered(hash, s0, 0, 2, "x");
    var s2 := Answered(hash, s1, 1, 3, "y");
    ReachesNext(hash, s2, Start(2, "v", ONE_INPUT));
    var s3 := Step(hash, s2, Start(2, "v", ONE_INPUT)).state;
    ReachesNext(hash, s3, Read(2, false));
    s := ReadStep(hash, s3, 2, false).state;
    var none: seq<string> := [];
    assert none + ["y"] == ["y"] && InputOf(s3.runs[2]) == "i";
  }

  // ---------------------------------------------------------------- one run on its own

  /** Without steps of others in between, the three steps for one input are the sequential
      description of it. */
  lemma AloneIsDescribeOne(hash: string -> string, s: State, id: nat, calls: Calls)
    returns (acts: seq<Action>, t: State)
    requires id in s.runs && s.runs[id].pc.Reading? && Working(s.runs[id])
    ensures Runs(hash, s, acts, t)
    ensures var r := s.runs[id];
            var d := DescribeOne(MemoryOf(s), KeyOf(hash, r), InputOf(r), calls);
            MemoryOf(t) == d.memory
            && t.runs == s.runs[id := if d.text.Some? then r.(texts := r.texts + [d.text.value]) else r.(pc := Failed)]
  {
    hide CacheKey;
    var r := s.runs[id];
    var read := Read(id, calls.getFails);
    var m := ReadStep(hash, s, id, calls.getFails).state;
    if calls.getFails || KeyOf(hash, r) in s.cache {
      t, acts := m, [read];
      NoSteps(hash, t);
      Then(hash, s, read, [], t);
    } else {
      var ask := Ask(id, calls.answer);
      var n := AskStep(m, id, calls.answer).state;
      if calls.answer.None? {
        t, acts := n, [read] + [ask];
        NoSteps(hash, t);
        Then(hash, m, ask, [], t);
        Then(hash, s, read, [ask], t);
      } else {
        var store := Store(id, calls.putFails, calls.putKept);
        t := StoreStep(hash, n, id, calls.putFails, calls.putKept).state;
        acts := [read] + ([ask] + [store]);
        NoSteps(hash, t);
        Then(hash, n, store, [], t);
        Then(hash, m, ask, [store], t);
        Then(hash, s, read, [ask] + [store], t);
      }
    }
  }

  lemma Then(hash: string -> string, s: State, a: Action, acts: seq<Action>, t: State)
    requires Step(hash, s, a).To? && Runs(hash, Step(hash, s, a).state, acts, t)
    ensures Runs(hash, s, [a] + acts, t)
    ensures acts == [] ==> [a] + acts == [a]
  {
    hide Step;
    assert ([a] + acts)[1..] == acts;
  }
}
