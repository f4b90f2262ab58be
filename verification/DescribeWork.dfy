/** The describe-work step: commits grouped by day or repository, each group described by an
    LLM or from a cache keyed by hashes. `hash` stands for the hex digest, `diff` for the diff
    fetcher, which here is deterministic and may fail. */
module DescribeWork {
  import opened Common
  import opened Strings
  import opened Types
  import opened Filtering
  import opened KeyOrder

  // ---------------------------------------------------------------- the cache key

  const NAME := "describe-work"

  /** Collision free, and hex has no separator. */
  ghost predicate GoodHash(hash: string -> string) {
    && (forall a, b :: hash(a) == hash(b) ==> a == b)
    && (forall a :: '|' !in hash(a))
  }

  function ProcessingVersion(hash: string -> string, promptVersion: string, model: string): string {
    hash(promptVersion + "|" + model)
  }

  function CacheKey(hash: string -> string, version: string, input: string): string {
    hash(NAME + "|" + version + "|" + hash(input))
  }

  lemma SplitAtBar(a: string, b: string, c: string, d: string)
    requires a + "|" + b == c + "|" + d && '|' !in a && '|' !in c
    ensures a == c && b == d
  {
    var s := a + "|" + b;
    assert s[|a|] == '|' && s[|c|] == '|';
    assert forall k :: 0 <= k < |a| ==> s[k] == a[k];
    assert forall k :: 0 <= k < |c| ==> s[k] == c[k];
    assert |a| == |c|;
    assert a == s[..|a|] == c && b == s[|a| + 1..] == d;
  }

  /** Two versions and inputs share a cache key only if they are the same. */
  lemma CacheKeyInjective(hash: string -> string, v: string, i: string, w: string, j: string)
    requires GoodHash(hash) && '|' !in v && '|' !in w
    ensures CacheKey(hash, v, i) == CacheKey(hash, w, j) <==> v == w && i == j
  {
    if CacheKey(hash, v, i) == CacheKey(hash, w, j) {
      var x, y := v + "|" + hash(i), w + "|" + hash(j);
      assert NAME + "|" + v + "|" + hash(i) == NAME + "|" + x;
      assert NAME + "|" + w + "|" + hash(j) == NAME + "|" + y;
      assert NAME + "|" + x == NAME + "|" + y;
      assert x == (NAME + "|" + x)[|NAME| + 1..] == y;
      SplitAtBar(v, hash(i), w, hash(j));
    }
  }

  /** Some other prompt version and model hash to the same processing version. */
  ghost predicate SharesVersion(hash: string -> string, p: string, m: string) {
    exists q, n :: (q != p || n != m) && ProcessingVersion(hash, q, n) == ProcessingVersion(hash, p, m)
  }

  lemma SharedBy(hash: string -> string, p: string, m: string, q: string, n: string)
    requires (q != p || n != m) && q + "|" + n == p + "|" + m
    ensures SharesVersion(hash, p, m)
  {
    assert ProcessingVersion(hash, q, n) == ProcessingVersion(hash, p, m);
  }

  /** The version changes with every change of prompt version or model exactly when neither
      contains the separator. */
  lemma VersionUniqueIffNoBar(hash: string -> string, p: string, m: string)
    requires GoodHash(hash)
    ensures !SharesVersion(hash, p, m) <==> '|' !in p && '|' !in m
  {
    if '|' in p {
      var k :| 0 <= k < |p| && p[k] == '|';
      var rest := p[k + 1..] + "|" + m;
      assert p == p[..k] + "|" + p[k + 1..];
      assert p[..k] + "|" + rest == p + "|" + m;
      assert |p[..k]| < |p|;
      SharedBy(hash, p, m, p[..k], rest);
    } else if '|' in m {
      var k :| 0 <= k < |m| && m[k] == '|';
      var longer := p + "|" + m[..k];
      assert m == m[..k] + "|" + m[k + 1..];
      assert longer + "|" + m[k + 1..] == p + "|" + m;
      assert |longer| > |p|;
      SharedBy(hash, p, m, longer, m[k + 1..]);
    } else {
      forall q, n | ProcessingVersion(hash, q, n) == ProcessingVersion(hash, p, m)
        ensures q == p && n == m
      {
        BarIsInTheMiddle(p, m, q, n);
      }
    }
  }

  lemma BarIsInTheMiddle(p: string, m: string, q: string, n: string)
    requires q + "|" + n == p + "|" + m && '|' !in p && '|' !in m
    ensures q == p && n == m
  {
    var s := p + "|" + m;
    assert s == q + "|" + n && s[|q|] == '|';
    forall k | 0 <= k < |s| && k != |p|
      ensures s[k] != '|'
    {
      assert s[k] == if k < |p| then p[k] else m[k - |p| - 1];
    }
    assert |q| == |p|;
    assert q == s[..|p|] == p && n == s[|p| + 1..] == m;
  }

  /** Two different pairs with one version, whatever the hash. */
  lemma BarSharesVersion(hash: string -> string)
    ensures ProcessingVersion(hash, "v1|a", "b") == ProcessingVersion(hash, "v1", "a|b")
  {
    assert "v1|a" + "|" + "b" == "v1" + "|" + "a|b";
  }

  // ---------------------------------------------------------------- groups and inputs

  datatype Grouping = ByDay | ByRepo

  datatype Group = Group(key: Key, commits: seq<Event>)

  function GroupKey(on: Grouping, e: Event): Key {
    if on.ByDay? then Day(DayOf(e.ts)) else Text(e.repo)
  }

  predicate IsCommit(e: Event) { e.kind == "commit" }

  /** The commits of one group, in timeline order. */
  function CommitsOf(timeline: seq<Event>, on: Grouping, key: Key): seq<Event> {
    if timeline == [] then []
    else
      var front, last := CommitsOf(timeline[..|timeline| - 1], on, key), timeline[|timeline| - 1];
      if IsCommit(last) && GroupKey(on, last) == key then front + [last] else front
  }

  /** The groups of the commits, each key once and in ascending order. */
  ghost predicate GroupsOf(timeline: seq<Event>, on: Grouping, groups: seq<Group>) {
    && (forall i, j :: 0 <= i < j < |groups| ==> Less(groups[i].key, groups[j].key))
    && (forall i :: 0 <= i < |groups| ==> groups[i].commits == CommitsOf(timeline, on, groups[i].key))
    && (forall k :: CommitsOf(timeline, on, k) != [] <==> exists i :: 0 <= i < |groups| && groups[i].key == k)
  }

  ghost predicate Gathered(timeline: seq<Event>, on: Grouping, buckets: map<Key, seq<Event>>, keys: seq<Key>) {
    && (forall i, j :: 0 <= i < j < |keys| ==> keys[i] != keys[j])
    && (forall k :: k in keys <==> k in buckets)
    && (forall k :: k in buckets <==> CommitsOf(timeline, on, k) != [])
    && (forall k :: k in buckets ==> buckets[k] == CommitsOf(timeline, on, k))
  }

  /** The commits made on the UTC day `d`, in timeline order. */
  function CommitsOnDay(timeline: seq<Event>, d: int): seq<Event> {
    Where(timeline, (e: Event) => e.kind == "commit" && d * 86400 <= e.ts < (d + 1) * 86400)
  }

  /** The commits to the repositories of that name, in timeline order. */
  function CommitsInRepo(timeline: seq<Event>, repo: string): seq<Event> {
    Where(timeline, (e: Event) => e.kind == "commit" && e.repo == repo)
  }

  /** One group for every day with a commit, ascending. */
  ghost predicate GroupedByDay(timeline: seq<Event>, groups: seq<Group>) {
    && (forall i :: 0 <= i < |groups| ==>
          groups[i].key.Day? && groups[i].commits != []
          && groups[i].commits == CommitsOnDay(timeline, groups[i].key.number))
    && (forall i, j :: 0 <= i < j < |groups| ==> groups[i].key.number < groups[j].key.number)
    && (forall e :: e in timeline && e.kind == "commit" ==> exists i :: 0 <= i < |groups| && e in groups[i].commits)
  }

  /** One group for every repository name with a commit, ascending. */
  ghost predicate GroupedByRepo(timeline: seq<Event>, groups: seq<Group>) {
    && (forall i :: 0 <= i < |groups| ==>
          groups[i].key.Text? && groups[i].commits != []
          && groups[i].commits == CommitsInRepo(timeline, groups[i].key.text))
    && (forall i, j :: 0 <= i < j < |groups| ==> TextLess(groups[i].key.text, groups[j].key.text))
    && (forall e :: e in timeline && e.kind == "commit" ==> exists i :: 0 <= i < |groups| && e in groups[i].commits)
  }

  lemma {:induction false} CommitsAreWhere(timeline: seq<Event>, on: Grouping, key: Key, such: Event -> bool)
    requires forall e :: such(e) <==> IsCommit(e) && GroupKey(on, e) == key
    ensures CommitsOf(timeline, on, key) == Where(timeline, such)
  {
    if timeline != [] { CommitsAreWhere(timeline[..|timeline| - 1], on, key, such); }
  }

  lemma CommitsByDay(timeline: seq<Event>, d: int)
    ensures CommitsOf(timeline, ByDay, Day(d)) == CommitsOnDay(timeline, d)
  {
    forall e: Event
      ensures DayOf(e.ts) == d <==> d * 86400 <= e.ts < (d + 1) * 86400
    {
      DayIs(e.ts, d);
    }
    CommitsAreWhere(timeline, ByDay, Day(d),
                    (e: Event) => e.kind == "commit" && d * 86400 <= e.ts < (d + 1) * 86400);
  }

  lemma CommitsByRepo(timeline: seq<Event>, repo: string)
    ensures CommitsOf(timeline, ByRepo, Text(repo)) == CommitsInRepo(timeline, repo)
  {
    CommitsAreWhere(timeline, ByRepo, Text(repo), (e: Event) => e.kind == "commit" && e.repo == repo);
  }

  /** A key that groups something is a day or a repository name, as asked for. */
  lemma {:induction false} KeySort(timeline: seq<Event>, on: Grouping, key: Key)
    requires CommitsOf(timeline, on, key) != []
    ensures if on.ByDay? then key.Day? else key.Text?
  {
    if CommitsOf(timeline[..|timeline| - 1], on, key) != [] { KeySort(timeline[..|timeline| - 1], on, key); }
  }

  lemma EveryCommitIsGrouped(timeline: seq<Event>, on: Grouping, groups: seq<Group>, e: Event)
    requires GroupsOf(timeline, on, groups) && e in timeline && e.kind == "commit"
    ensures exists i :: 0 <= i < |groups| && e in groups[i].commits
  {
    var key := GroupKey(on, e);
    CommitsAreWhere(timeline, on, key, (x: Event) => IsCommit(x) && GroupKey(on, x) == key);
    WhereMembers(timeline, (x: Event) => IsCommit(x) && GroupKey(on, x) == key, e);
    hide CommitsOf, Where, Less;
    assert CommitsOf(timeline, on, key) != [];
    var i :| 0 <= i < |groups| && groups[i].key == key;
    assert e in groups[i].commits;
  }

  lemma GroupsByDay(timeline: seq<Event>, groups: seq<Group>)
    requires GroupsOf(timeline, ByDay, groups)
    ensures GroupedByDay(timeline, groups)
  {
    hide CommitsOf, CommitsOnDay;
    forall i | 0 <= i < |groups|
      ensures groups[i].key.Day? && groups[i].commits != []
        && groups[i].commits == CommitsOnDay(timeline, groups[i].key.number)
    {
      KeySort(timeline, ByDay, groups[i].key);
      CommitsByDay(timeline, groups[i].key.number);
    }
    forall e | e in timeline && e.kind == "commit"
      ensures exists i :: 0 <= i < |groups| && e in groups[i].commits
    {
      EveryCommitIsGrouped(timeline, ByDay, groups, e);
    }
  }

  lemma GroupsByRepo(timeline: seq<Event>, groups: seq<Group>)
    requires GroupsOf(timeline, ByRepo, groups)
    ensures GroupedByRepo(timeline, groups)
  {
    hide CommitsOf, CommitsInRepo, TextLess;
    forall i | 0 <= i < |groups|
      ensures groups[i].key.Text? && groups[i].commits != []
        && groups[i].commits == CommitsInRepo(timeline, groups[i].key.text)
    {
      KeySort(timeline, ByRepo, groups[i].key);
      CommitsByRepo(timeline, groups[i].key.text);
    }
    forall e | e in timeline && e.kind == "commit"
      ensures exists i :: 0 <= i < |groups| && e in groups[i].commits
    {
      EveryCommitIsGrouped(timeline, ByRepo, groups, e);
    }
  }

  method GroupCommits(timeline: seq<Event>, on: Grouping) returns (groups: seq<Group>)
    ensures GroupsOf(timeline, on, groups)
    ensures if on.ByDay? then GroupedByDay(timeline, groups) else GroupedByRepo(timeline, groups)
  {
    hide GroupsOf, GroupKey, IsCommit, GroupedByDay, GroupedByRepo;
    var buckets: map<Key, seq<Event>> := map[];
    var keys: seq<Key> := [];
    for i := 0 to |timeline|
      invariant Gathered(timeline[..i], on, buckets, keys)
    {
      var e := timeline[i];
      assert timeline[..i + 1][..i] == timeline[..i];
      if !IsCommit(e) {
        continue;
      }
      var key := GroupKey(on, e);
      var soFar := [];
      if key in buckets { soFar := buckets[key]; } else { keys := keys + [key]; }
      buckets := buckets[key := soFar + [e]];
    }
    assert timeline[..|timeline|] == timeline;
    var sorted := SortKeys(keys);
    hide CommitsOf;
    groups := [];
    for i := 0 to |sorted|
      invariant |groups| == i
      invariant forall j :: 0 <= j < i ==> groups[j] == Group(sorted[j], CommitsOf(timeline, on, sorted[j]))
    {
      assert sorted[i] in sorted;
      groups := groups + [Group(sorted[i], buckets[sorted[i]])];
    }
    AllGrouped(timeline, on, sorted, groups);
    if on.ByDay? { GroupsByDay(timeline, groups); } else { GroupsByRepo(timeline, groups); }
  }

  lemma AllGrouped(timeline: seq<Event>, on: Grouping, sorted: seq<Key>, groups: seq<Group>)
    requires Increasing(sorted) && |groups| == |sorted|
    requires forall k :: k in sorted <==> CommitsOf(timeline, on, k) != []
    requires forall j :: 0 <= j < |groups| ==> groups[j] == Group(sorted[j], CommitsOf(timeline, on, sorted[j]))
    ensures GroupsOf(timeline, on, groups)
  {
    hide CommitsOf, Less;
    forall k
      ensures CommitsOf(timeline, on, k) != [] <==> exists i :: 0 <= i < |groups| && groups[i].key == k
    {
      if CommitsOf(timeline, on, k) != [] {
        assert k in sorted;
        var i :| 0 <= i < |sorted| && sorted[i] == k;
        assert groups[i].key == k;
      }
      if i :| 0 <= i < |groups| && groups[i].key == k { assert sorted[i] in sorted; }
    }
  }

  /** Case folding as far as the junk titles need it; the long s folds to an s. */
  function Fold(c: char): char {
    if 'A' <= c <= 'Z' then c + 32 as char else if c == '\U{017F}' then 's' else c
  }

  function Folded(title: string): string {
    seq(|title|, i requires 0 <= i < |title| => Fold(title[i]))
  }

  predicate Junk(title: string) {
    Folded(title) in {"wip", "fix", "update", "asdf"}
      || (title != "" && forall i :: 0 <= i < |title| ==> title[i] == '.')
  }

  /** The length in bytes, as UTF-8. */
  function Bytes(s: string): nat {
    if s == "" then 0
    else
      var c := s[0];
      Bytes(s[1..]) + if c < '\U{80}' then 1 else if c < '\U{800}' then 2 else if c < '\U{10000}' then 3 else 4
  }

  lemma {:induction false} BytesAdd(a: string, b: string)
    ensures Bytes(a + b) == Bytes(a) + Bytes(b)
  {
    if a == "" { assert a + b == b; } else { assert (a + b)[1..] == a[1..] + b; BytesAdd(a[1..], b); }
  }

  /** Every character has from one to four bytes, and one exactly if it is an ASCII character. */
  lemma {:induction false} BytesOfText(s: string)
    ensures |s| <= Bytes(s) <= 4 * |s|
    ensures Bytes(s) == |s| <==> forall i :: 0 <= i < |s| ==> s[i] as int < 128
  {
    if s != "" {
      BytesOfText(s[1..]);
      assert forall i :: 1 <= i < |s| ==> s[i] == s[1..][i - 1];
      assert forall i :: 0 <= i < |s[1..]| ==> s[1..][i] == s[i + 1];
    }
  }

  /** The small letter `w` in either case; the long s is an s. */
  predicate SameLetter(c: char, w: char) {
    c == w || c as int == w as int - 32 || (w == 's' && c == '\U{017F}')
  }

  /** The title is the word in any case. */
  predicate Spells(title: string, word: string) {
    |title| == |word| && forall i :: 0 <= i < |word| ==> SameLetter(title[i], word[i])
  }

  predicate LowerCase(word: string) {
    forall i :: 0 <= i < |word| ==> 'a' <= word[i] <= 'z'
  }

  lemma FoldsTo(title: string, word: string)
    requires LowerCase(word)
    ensures Folded(title) == word <==> Spells(title, word)
  {
    if Folded(title) == word {
      forall i | 0 <= i < |word|
        ensures SameLetter(title[i], word[i])
      {
        assert Folded(title)[i] == word[i];
      }
    }
    if Spells(title, word) {
      forall i | 0 <= i < |word|
        ensures Folded(title)[i] == word[i]
      {
        assert SameLetter(title[i], word[i]) && 'a' <= word[i] <= 'z';
      }
    }
  }

  /** The titles without a signal: one of four words in any case, or nothing but dots. */
  lemma JunkIsSpelled(title: string)
    ensures Junk(title) <==>
      Spells(title, "wip") || Spells(title, "fix") || Spells(title, "update") || Spells(title, "asdf")
      || (title != "" && forall c :: c in title ==> c == '.')
  {
    FoldsTo(title, "wip");
    FoldsTo(title, "fix");
    FoldsTo(title, "update");
    FoldsTo(title, "asdf");
    hide Folded, Spells;
    assert forall i :: 0 <= i < |title| ==> title[i] in title;
  }

  predicate IsThin(title: string, maxLen: int) {
    Bytes(title) < maxLen || Junk(title)
  }

  function Truncate(s: string, maxLen: nat): string {
    if |s| <= maxLen then s else s[..maxLen]
  }

  /** The commit needs a diff that cannot be had. */
  predicate LacksDiff(e: Event, maxLen: int, diff: Event -> Option<string>) {
    IsThin(e.title, maxLen) && diff(e).None?
  }

  /** A commit's part of the input: its title, and the start of its diff if the title is thin. */
  function Segment(e: Event, maxLen: int, diff: Event -> Option<string>): string
    requires !LacksDiff(e, maxLen, diff)
  {
    if IsThin(e.title, maxLen) then e.title + "\n" + Truncate(diff(e).value, 2000) else e.title
  }

  predicate AllHaveDiffs(commits: seq<Event>, maxLen: int, diff: Event -> Option<string>) {
    forall i :: 0 <= i < |commits| ==> !LacksDiff(commits[i], maxLen, diff)
  }

  function Segments(commits: seq<Event>, maxLen: int, diff: Event -> Option<string>): seq<string>
    requires AllHaveDiffs(commits, maxLen, diff)
  {
    seq(|commits|, i requires 0 <= i < |commits| => Segment(commits[i], maxLen, diff))
  }

  function Input(commits: seq<Event>, maxLen: int, diff: Event -> Option<string>): Option<string> {
    if AllHaveDiffs(commits, maxLen, diff) then Some(Join(Segments(commits, maxLen, diff), "\n")) else None
  }

  ghost predicate JoinsSegments(commits: seq<Event>, maxLen: int, diff: Event -> Option<string>,
                                input: Option<string>) {
    && (input.None? <==> exists e :: e in commits && (Bytes(e.title) < maxLen || Junk(e.title)) && diff(e).None?)
    && (input.Some? ==>
          exists segments :: input.value == Join(segments, "\n") && |segments| == |commits|
            && forall i :: 0 <= i < |commits| ==>
                 var title, patch := commits[i].title, diff(commits[i]).GetOr("");
                 segments[i] == if Bytes(title) < maxLen || Junk(title) then title + "\n" + patch[..Min(|patch|, 2000)]
                                else title)
  }

  /** Fails exactly when some thin commit's diff cannot be had; otherwise one segment for each
      commit, in order, joined by line breaks. */
  method BuildInput(commits: seq<Event>, maxLen: int, diff: Event -> Option<string>) returns (input: Option<string>)
    ensures input == Input(commits, maxLen, diff)
    ensures JoinsSegments(commits, maxLen, diff, input)
  {
    hide Bytes, Junk, Join;
    var segments: seq<string> := [];
    for i := 0 to |commits|
      invariant AllHaveDiffs(commits[..i], maxLen, diff) && segments == Segments(commits[..i], maxLen, diff)
    {
      assert forall j :: 0 <= j < i ==> commits[..i + 1][j] == commits[..i][j];
      assert commits[..i + 1][i] == commits[i];
      var segment := commits[i].title;
      if IsThin(commits[i].title, maxLen) {
        var fetched := diff(commits[i]);
        if fetched.None? {
          assert LacksDiff(commits[i], maxLen, diff);
          return None;
        }
        segment := segment + "\n" + Truncate(fetched.value, 2000);
      }
      segments := segments + [segment];
    }
    assert commits[..|commits|] == commits;
    return Some(Join(segments, "\n"));
  }

  // ---------------------------------------------------------------- describing

  /** The fixed instruction with the input behind it. */
  datatype Prompt = PromptFor(input: string)

  /** A prompt the LLM was asked and what it answered. */
  datatype Answer = Answer(prompt: Prompt, output: string)

  /** The cache and every answer the LLM has given. */
  datatype Memory = Memory(cache: map<string, string>, answered: seq<Answer>)

  /** How the calls for one group go. A failed write may have happened all the same. */
  datatype Calls = Calls(getFails: bool, answer: Option<string>, putFails: bool, putKept: bool)

  datatype Described = Described(memory: Memory, text: Option<string>)

  /** Cache first; on a miss the LLM, whose answer is stored. */
  function DescribeOne(m: Memory, key: string, input: string, calls: Calls): Described {
    if calls.getFails then Described(m, None)
    else if key in m.cache then Described(m, Some(m.cache[key]))
    else if calls.answer.None? then Described(m, None)
    else
      var asked := m.(answered := m.answered + [Answer(PromptFor(input), calls.answer.value)]);
      var stored := asked.(cache := m.cache[key := calls.answer.value]);
      if calls.putFails then Described(if calls.putKept then stored else asked, None)
      else Described(stored, calls.answer)
  }

  datatype Outcome = Outcome(memory: Memory, texts: seq<string>, ok: bool)

  /** One group after the other, up to the first that fails. */
  function DescribeAll(m: Memory, hash: string -> string, version: string, inputs: seq<Option<string>>,
                       calls: nat -> Calls): Outcome {
    if inputs == [] then Outcome(m, [], true)
    else
      var n := |inputs| - 1;
      var before := DescribeAll(m, hash, version, inputs[..n], calls);
      if !before.ok || inputs[n].None? then before.(ok := false)
      else
        var d := DescribeOne(before.memory, CacheKey(hash, version, inputs[n].value), inputs[n].value, calls(n));
        if d.text.None? then Outcome(d.memory, before.texts, false)
        else Outcome(d.memory, before.texts + [d.text.value], true)
  }

  /** A hit returns the entry and changes nothing; a miss asks once, with this input's prompt, stores the
      answer and returns it. There is no text exactly when a call that was needed has failed. */
  ghost predicate Answers(before: Memory, after: Memory, key: string, input: string, calls: Calls,
                          text: Option<string>) {
    && (key in before.cache ==> after == before && text == if calls.getFails then None else Some(before.cache[key]))
    && (after.answered == before.answered
        || (calls.answer.Some?
            && after.answered == before.answered + [Answer(PromptFor(input), calls.answer.value)]))
    && (text.None? <==> calls.getFails || (key !in before.cache && (calls.answer.None? || calls.putFails)))
    && (text.Some? ==> key in after.cache && after.cache[key] == text.value)
    && (text.Some? && key !in before.cache ==>
          text == calls.answer && after.answered == before.answered + [Answer(PromptFor(input), text.value)])
    // no other entry is touched
    && (forall k :: k != key ==> (k in after.cache <==> k in before.cache)
                                 && (k in after.cache ==> after.cache[k] == before.cache[k]))
  }

  class Services {
    var cache: map<string, string>
    var answered: seq<Answer>

    function Now(): Memory
      reads this
    {
      Memory(cache, answered)
    }

    method Describe(hash: string -> string, version: string, input: string, calls: Calls) returns (text: Option<string>)
      modifies this
      ensures Described(Now(), text) == DescribeOne(old(Now()), CacheKey(hash, version, input), input, calls)
      ensures Answers(old(Now()), Now(), CacheKey(hash, version, input), input, calls, text)
    {
      var key := CacheKey(hash, version, input);
      if calls.getFails {
        return None;
      }
      if key in cache {
        return Some(cache[key]);
      }
      if calls.answer.None? {
        return None;
      }
      answered := answered + [Answer(PromptFor(input), calls.answer.value)];
      if calls.putFails {
        if calls.putKept { cache := cache[key := calls.answer.value]; }
        return None;
      }
      cache := cache[key := calls.answer.value];
      return calls.answer;
    }
  }

  function Inputs(groups: seq<Group>, maxLen: int, diff: Event -> Option<string>): seq<Option<string>> {
    seq(|groups|, i requires 0 <= i < |groups| => Input(groups[i].commits, maxLen, diff))
  }

  function DescribedRow(group: Group, text: string): Row {
    Row(group.key, map["commits" := |group.commits| as real], map["description" := text])
  }

  function DescribedRows(groups: seq<Group>, texts: seq<string>): seq<Row>
    requires |texts| <= |groups|
  {
    seq(|texts|, i requires 0 <= i < |texts| => DescribedRow(groups[i], texts[i]))
  }

  lemma {:induction false} StaysFailed(m: Memory, hash: string -> string, version: string, inputs: seq<Option<string>>,
                                       calls: nat -> Calls, n: nat)
    requires n <= |inputs| && !DescribeAll(m, hash, version, inputs[..n], calls).ok
    ensures DescribeAll(m, hash, version, inputs, calls) == DescribeAll(m, hash, version, inputs[..n], calls)
    decreases |inputs| - n
  {
    if n < |inputs| {
      assert inputs[..n + 1][..n] == inputs[..n];
      StaysFailed(m, hash, version, inputs, calls, n + 1);
    } else {
      assert inputs[..n] == inputs;
    }
  }

  lemma {:induction false} TextsFit(m: Memory, hash: string -> string, version: string, inputs: seq<Option<string>>,
                                    calls: nat -> Calls)
    ensures var o := DescribeAll(m, hash, version, inputs, calls);
            |o.texts| <= |inputs| && (o.ok ==> |o.texts| == |inputs|)
  {
    if inputs != [] { TextsFit(m, hash, version, inputs[..|inputs| - 1], calls); }
  }

  /** Groups are described up to the first whose input cannot be built or whose description fails, and
      nothing is done for those behind it. */
  lemma {:induction false} StopsAtFirstFailure(m: Memory, hash: string -> string, version: string,
                                               inputs: seq<Option<string>>, calls: nat -> Calls)
    ensures var o := DescribeAll(m, hash, version, inputs, calls);
            var n := |o.texts|;
            if o.ok then n == |inputs|
            else
              n < |inputs|
              && var before := DescribeAll(m, hash, version, inputs[..n], calls);
                 before.ok && before.texts == o.texts
                 && if inputs[n].None? then o.memory == before.memory
                    else
                      var d := DescribeOne(before.memory, CacheKey(hash, version, inputs[n].value), inputs[n].value,
                                           calls(n));
                      d.text.None? && o.memory == d.memory
  {
    hide DescribeOne, CacheKey;
    if inputs != [] {
      var front := inputs[..|inputs| - 1];
      StopsAtFirstFailure(m, hash, version, front, calls);
      var n := |DescribeAll(m, hash, version, inputs, calls).texts|;
      assert n < |front| ==> inputs[..n] == front[..n];
    }
  }

  lemma NextDescribed(m: Memory, hash: string -> string, version: string, inputs: seq<Option<string>>,
                      calls: nat -> Calls,
                      n: nat, now: Memory, texts: seq<string>)
    requires n < |inputs| && DescribeAll(m, hash, version, inputs[..n], calls) == Outcome(now, texts, true)
    ensures inputs[n].None? ==> DescribeAll(m, hash, version, inputs, calls) == Outcome(now, texts, false)
    ensures inputs[n].Some? ==>
      var d := DescribeOne(now, CacheKey(hash, version, inputs[n].value), inputs[n].value, calls(n));
      if d.text.None? then DescribeAll(m, hash, version, inputs, calls) == Outcome(d.memory, texts, false)
      else DescribeAll(m, hash, version, inputs[..n + 1], calls) == Outcome(d.memory, texts + [d.text.value], true)
  {
    assert inputs[..n + 1][..n] == inputs[..n];
    if !DescribeAll(m, hash, version, inputs[..n + 1], calls).ok {
      StaysFailed(m, hash, version, inputs, calls, n + 1);
    }
  }

  lemma NothingDescribed(m: Memory, hash: string -> string, version: string, inputs: seq<Option<string>>,
                         calls: nat -> Calls, groups: seq<Group>)
    ensures DescribeAll(m, hash, version, inputs[..0], calls) == Outcome(m, [], true)
    ensures DescribedRows(groups, []) == []
  {
  }

  /** One row per described group; a failure leaves the rows of the groups before it. */
  method DescribeInTurn(s: State, sv: Services, groups: seq<Group>, maxLen: int, hash: string -> string,
                        version: string, diff: Event -> Option<string>, calls: nat -> Calls)
    returns (ok: bool)
    modifies s`rows, sv
    ensures var o := DescribeAll(old(sv.Now()), hash, version, Inputs(groups, maxLen, diff), calls);
            && ok == o.ok && sv.Now() == o.memory && |o.texts| <= |groups| && (ok ==> |o.texts| == |groups|)
            && s.rows == old(s.rows) + DescribedRows(groups, o.texts)
  {
    hide Input, DescribeOne, CacheKey, Answers, JoinsSegments, DescribeAll, DescribedRow, DescribedRows;
    ghost var inputs := Inputs(groups, maxLen, diff);
    ghost var m := sv.Now();
    ghost var texts: seq<string> := [];
    NothingDescribed(m, hash, version, inputs, calls, groups);
    for i := 0 to |groups|
      invariant |texts| == i
      invariant DescribeAll(m, hash, version, inputs[..i], calls) == Outcome(sv.Now(), texts, true)
      invariant s.rows == old(s.rows) + DescribedRows(groups, texts)
    {
      NextDescribed(m, hash, version, inputs, calls, i, sv.Now(), texts);
      var input := BuildInput(groups[i].commits, maxLen, diff);
      if input.None? {
        return false;
      }
      var text := sv.Describe(hash, version, input.value, calls(i));
      if text.None? {
        return false;
      }
      s.rows := s.rows + [DescribedRow(groups[i], text.value)];
      NextRow(groups, texts, text.value);
      texts := texts + [text.value];
    }
    assert inputs[..|groups|] == inputs;
    ok := true;
  }

  /** Appends one row for each group described, with its key, its size and its text. */
  method Apply(s: State, sv: Services, on: Grouping, maxLen: int, hash: string -> string, version: string,
               diff: Event -> Option<string>, calls: nat -> Calls)
    returns (ok: bool, ghost groups: seq<Group>)
    modifies s`rows, sv
    ensures GroupsOf(s.timeline, on, groups)
    ensures if on.ByDay? then GroupedByDay(s.timeline, groups) else GroupedByRepo(s.timeline, groups)
    ensures var o := DescribeAll(old(sv.Now()), hash, version, Inputs(groups, maxLen, diff), calls);
            && ok == o.ok && sv.Now() == o.memory && |o.texts| <= |groups| && (ok ==> |o.texts| == |groups|)
            && s.rows == old(s.rows) + DescribedRows(groups, o.texts)
            && RowsDescribe(old(s.rows), s.rows, groups, o.texts)
  {
    hide GroupsOf, GroupedByDay, GroupedByRepo, RowsDescribe, DescribeAll, DescribedRows, Inputs;
    var gs := GroupCommits(s.timeline, on);
    groups := gs;
    ghost var o := DescribeAll(sv.Now(), hash, version, Inputs(gs, maxLen, diff), calls);
    ok := DescribeInTurn(s, sv, gs, maxLen, hash, version, diff, calls);
    RowsAreDescribed(old(s.rows), gs, o.texts);
  }

  ghost predicate RowsDescribe(before: seq<Row>, rows: seq<Row>, groups: seq<Group>, texts: seq<string>) {
    && |texts| <= |groups| && |rows| == |before| + |texts| && rows[..|before|] == before
    && forall i :: 0 <= i < |texts| ==>
         var row := rows[|before| + i];
         row.key == groups[i].key && row.values == map["commits" := |groups[i].commits| as real]
         && row.labels == map["description" := texts[i]]
  }

  lemma RowsAreDescribed(before: seq<Row>, groups: seq<Group>, texts: seq<string>)
    requires |texts| <= |groups|
    ensures RowsDescribe(before, before + DescribedRows(groups, texts), groups, texts)
  {
  }

  lemma NextRow(groups: seq<Group>, texts: seq<string>, text: string)
    requires |texts| < |groups|
    ensures DescribedRows(groups, texts + [text])
      == DescribedRows(groups, texts) + [DescribedRow(groups[|texts|], text)]
  {
  }

  // ---------------------------------------------------------------- what the cache guarantees

  ghost predicate EntryAnswers(m: Memory, hash: string -> string, key: string) {
    key in m.cache && exists version, input ::
      '|' !in version && key == CacheKey(hash, version, input) && Answer(PromptFor(input), m.cache[key]) in m.answered
  }

  /** Every entry is what the LLM once answered to the prompt its key stands for. */
  ghost predicate Sound(m: Memory, hash: string -> string) {
    forall key {:trigger EntryAnswers(m, hash, key)} :: key in m.cache ==> EntryAnswers(m, hash, key)
  }

  /** A later memory: entries stay as they are and answers are only added. */
  ghost predicate Extends(m: Memory, n: Memory) {
    && m.answered <= n.answered
    && forall key :: key in m.cache ==> key in n.cache && n.cache[key] == m.cache[key]
  }

  lemma DescribeOneExtends(m: Memory, hash: string -> string, version: string, input: string, calls: Calls)
    ensures var d := DescribeOne(m, CacheKey(hash, version, input), input, calls);
            Extends(m, d.memory)
            && (d.text.Some? ==> CacheKey(hash, version, input) in d.memory.cache
                                 && d.memory.cache[CacheKey(hash, version, input)] == d.text.value)
            && (CacheKey(hash, version, input) in m.cache ==> d.memory == m)
  {
  }

  lemma DescribeOneKeepsSound(m: Memory, hash: string -> string, version: string, input: string, calls: Calls)
    requires Sound(m, hash) && '|' !in version
    ensures Sound(DescribeOne(m, CacheKey(hash, version, input), input, calls).memory, hash)
  {
    var key := CacheKey(hash, version, input);
    var n := DescribeOne(m, key, input, calls).memory;
    DescribeOneExtends(m, hash, version, input, calls);
    forall k | k in n.cache
      ensures EntryAnswers(n, hash, k)
    {
      if k in m.cache {
        assert EntryAnswers(m, hash, k);
        var v, i :| '|' !in v && k == CacheKey(hash, v, i) && Answer(PromptFor(i), m.cache[k]) in m.answered;
        assert Answer(PromptFor(i), n.cache[k]) in n.answered;
      } else {
        assert k == key;
        assert n.answered[|n.answered| - 1] == Answer(PromptFor(input), n.cache[k]);
        assert Answer(PromptFor(input), n.cache[k]) in n.answered;
      }
    }
  }

  /** In every state that runs of the step reach, whatever fails, cached entries are answers. */
  lemma {:induction false} RunsKeepSound(m: Memory, hash: string -> string, version: string,
                                         inputs: seq<Option<string>>, calls: nat -> Calls)
    requires Sound(m, hash) && '|' !in version
    ensures Sound(DescribeAll(m, hash, version, inputs, calls).memory, hash)
    ensures Extends(m, DescribeAll(m, hash, version, inputs, calls).memory)
  {
    hide Sound;
    if inputs != [] {
      var n := |inputs| - 1;
      RunsKeepSound(m, hash, version, inputs[..n], calls);
      var before := DescribeAll(m, hash, version, inputs[..n], calls);
      if before.ok && inputs[n].Some? {
        DescribeOneKeepsSound(before.memory, hash, version, inputs[n].value, calls(n));
        DescribeOneExtends(before.memory, hash, version, inputs[n].value, calls(n));
      }
    }
  }

  /** A hit is an answer to the very prompt that a call would have sent. */
  lemma HitIsAnAnswer(m: Memory, hash: string -> string, version: string, input: string)
    requires GoodHash(hash) && Sound(m, hash) && '|' !in version && CacheKey(hash, version, input) in m.cache
    ensures Answer(PromptFor(input), m.cache[CacheKey(hash, version, input)]) in m.answered
  {
    var key := CacheKey(hash, version, input);
    assert EntryAnswers(m, hash, key);
    var v, i :| '|' !in v && key == CacheKey(hash, v, i) && Answer(PromptFor(i), m.cache[key]) in m.answered;
    CacheKeyInjective(hash, v, i, version, input);
  }

  ghost predicate AllCached(m: Memory, hash: string -> string, version: string, inputs: seq<Option<string>>,
                            texts: seq<string>) {
    && |texts| == |inputs|
    && forall i :: 0 <= i < |inputs| ==>
         inputs[i].Some? && CacheKey(hash, version, inputs[i].value) in m.cache
         && m.cache[CacheKey(hash, version, inputs[i].value)] == texts[i]
  }

  lemma {:induction false} SuccessIsCached(m: Memory, hash: string -> string, version: string,
                                           inputs: seq<Option<string>>, calls: nat -> Calls)
    requires DescribeAll(m, hash, version, inputs, calls).ok
    ensures var o := DescribeAll(m, hash, version, inputs, calls); AllCached(o.memory, hash, version, inputs, o.texts)
  {
    if inputs != [] {
      var n := |inputs| - 1;
      SuccessIsCached(m, hash, version, inputs[..n], calls);
      var before := DescribeAll(m, hash, version, inputs[..n], calls);
      DescribeOneExtends(before.memory, hash, version, inputs[n].value, calls(n));
      assert forall i :: 0 <= i < n ==> inputs[..n][i] == inputs[i];
    }
  }

  lemma {:induction false} CachedIsRepeated(m: Memory, hash: string -> string, version: string,
                                            inputs: seq<Option<string>>,
                                            texts: seq<string>, calls: nat -> Calls)
    requires AllCached(m, hash, version, inputs, texts) && forall i :: 0 <= i < |inputs| ==> !calls(i).getFails
    ensures DescribeAll(m, hash, version, inputs, calls) == Outcome(m, texts, true)
  {
    if inputs != [] {
      var n := |inputs| - 1;
      CachedIsRepeated(m, hash, version, inputs[..n], texts[..n], calls);
      assert texts == texts[..n] + [texts[n]];
    }
  }

  /** After a successful run the same inputs are described again without a single LLM call, as
      long as the cache can be read, and the texts are identical. */
  lemma RepeatMakesNoCall(m: Memory, hash: string -> string, version: string, inputs: seq<Option<string>>,
                          calls: nat -> Calls, again: nat -> Calls)
    requires DescribeAll(m, hash, version, inputs, calls).ok && forall i :: 0 <= i < |inputs| ==> !again(i).getFails
    ensures var first := DescribeAll(m, hash, version, inputs, calls);
            DescribeAll(first.memory, hash, version, inputs, again) == first
  {
    SuccessIsCached(m, hash, version, inputs, calls);
    var first := DescribeAll(m, hash, version, inputs, calls);
    CachedIsRepeated(first.memory, hash, version, inputs, first.texts, again);
  }

  /** Run again on the same timeline the step appends the same rows once more. */
  lemma SecondRunAppendsSameRows(m: Memory, hash: string -> string, version: string, timeline: seq<Event>, on: Grouping,
                                 a: seq<Group>, b: seq<Group>, maxLen: int, diff: Event -> Option<string>,
                                 calls: nat -> Calls, again: nat -> Calls)
    requires GroupsOf(timeline, on, a) && GroupsOf(timeline, on, b)
    requires DescribeAll(m, hash, version, Inputs(a, maxLen, diff), calls).ok
    requires forall i :: 0 <= i < |a| ==> !again(i).getFails
    ensures var first := DescribeAll(m, hash, version, Inputs(a, maxLen, diff), calls);
            var second := DescribeAll(first.memory, hash, version, Inputs(b, maxLen, diff), again);
            second.ok && second.memory == first.memory && |first.texts| == |a| == |b| == |second.texts|
            && DescribedRows(b, second.texts) == DescribedRows(a, first.texts)
  {
    GroupsAreUnique(timeline, on, a, b);
    RepeatMakesNoCall(m, hash, version, Inputs(a, maxLen, diff), calls, again);
    TextsFit(m, hash, version, Inputs(a, maxLen, diff), calls);
  }

  /** The groups do not depend on the order in which the buckets were filled. */
  lemma GroupsAreUnique(timeline: seq<Event>, on: Grouping, a: seq<Group>, b: seq<Group>)
    requires GroupsOf(timeline, on, a) && GroupsOf(timeline, on, b)
    ensures a == b
  {
    var ka, kb := seq(|a|, i requires 0 <= i < |a| => a[i].key), seq(|b|, i requires 0 <= i < |b| => b[i].key);
    forall k
      ensures k in ka <==> k in kb
    {
      if k in ka {
        var i :| 0 <= i < |ka| && ka[i] == k;
        assert a[i].key == k && CommitsOf(timeline, on, k) != [];
        var j :| 0 <= j < |b| && b[j].key == k;
        assert kb[j] == k;
      }
      if k in kb {
        var i :| 0 <= i < |kb| && kb[i] == k;
        assert b[i].key == k && CommitsOf(timeline, on, k) != [];
        var j :| 0 <= j < |a| && a[j].key == k;
        assert ka[j] == k;
      }
    }
    SortedKeysUnique(ka, kb);
    assert |ka| == |a| && |kb| == |b|;
    forall i | 0 <= i < |a|
      ensures a[i] == b[i]
    {
      assert ka[i] == kb[i];
    }
  }
}
