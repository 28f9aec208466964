/**
 Store and forward in the Hindsight bridge: a retained fact is posted upstream or appended to a
 local buffer, and every post that succeeds is followed by an attempt to post what is buffered.
 The upstream is arbitrary: `reply(n)` is the status of the n-th request, 0 if it failed.
 */
module OfflineBuffer {
  import opened Options
  import opened Regex
  import opened Sanitizer

  datatype Fact = Fact(content: string, context: string)

  datatype Entry = Entry(id: string, bank: string, fact: Fact, timestamp: string, pending: bool)

  /** A request that was sent; `slot` is the buffer position it was sent for, if any. */
  datatype Post = Post(path: string, fact: Fact, status: int, slot: Option<nat>)

  datatype World = World(buffer: seq<Entry>, posts: seq<Post>)

  /** What the bridge finds in its surroundings. */
  datatype Env = Env(table: CharTable, reply: nat -> int, quote: string -> string)

  /** Arguments of one `hindsight_retain` call, and the ID and time it would store. */
  datatype Call = Call(content: string, context: string, bank: string, id: string, timestamp: string)

  predicate Ok(status: int) { 200 <= status < 300 }

  function Strip(t: CharTable, s: string): string
    decreases |s|
  {
    if s != "" && t.space(s[0]) then Strip(t, s[1..])
    else if s != "" && t.space(s[|s| - 1]) then Strip(t, s[..|s| - 1])
    else s
  }

  function CleanFact(t: CharTable, call: Call): Fact {
    Fact(SanitizePrivacy(t, Strip(t, call.content)), SanitizePrivacy(t, Strip(t, call.context)))
  }

  /** A call whose cleaned content is empty is refused and has no effect. */
  predicate Accepted(t: CharTable, call: Call) { CleanFact(t, call).content != "" }

  function Send(env: Env, w: World, path: string, fact: Fact, slot: Option<nat>): World {
    w.(posts := w.posts + [Post(path, fact, env.reply(|w.posts|), slot)])
  }

  function Acked(w: World): bool
    requires w.posts != []
  {
    Ok(w.posts[|w.posts| - 1].status)
  }

  function Settle(w: World, k: nat): World
    requires k < |w.buffer|
  {
    w.(buffer := w.buffer[k := w.buffer[k].(pending := false)])
  }

  /** One buffered entry during a flush. */
  function FlushOne(env: Env, w: World, path: string, k: nat): World
    requires k < |w.buffer|
  {
    if !w.buffer[k].pending then w
    else
      var sent := Send(env, w, path, w.buffer[k].fact, Some(k));
      if Acked(sent) then Settle(sent, k) else sent
  }

  /** The entries before `n`, flushed in buffer order. */
  function Flushed(env: Env, w: World, path: string, n: nat): (w': World)
    requires n <= |w.buffer|
    ensures |w'.buffer| == |w.buffer|
  {
    if n == 0 then w else FlushOne(env, Flushed(env, w, path, n - 1), path, n - 1)
  }

  function Flush(env: Env, w: World, path: string): World { Flushed(env, w, path, |w.buffer|) }

  function Append(w: World, call: Call, fact: Fact): World {
    w.(buffer := w.buffer + [Entry(call.id, call.bank, fact, call.timestamp, true)])
  }

  function Retain(env: Env, w: World, call: Call): World {
    if !Accepted(env.table, call) then w
    else
      var fact := CleanFact(env.table, call);
      var path := env.quote(call.bank);
      var sent := Send(env, w, path, fact, None);
      if Acked(sent) then Flush(env, sent, path) else Append(sent, call, fact)
  }

  function RunCalls(env: Env, w: World, calls: seq<Call>): World {
    if calls == [] then w else Retain(env, RunCalls(env, w, calls[..|calls| - 1]), calls[|calls| - 1])
  }

  // ----- The bridge as it runs -----

  datatype Answer = EmptyContent | Upstream | Buffered(id: string)

  class Bridge {
    const env: Env
    /** The JSON file, and the requests sent so far. */
    var buffer: seq<Entry>
    var posts: seq<Post>

    constructor (env: Env)
      ensures this.env == env && buffer == [] && posts == []
    {
      this.env, buffer, posts := env, [], [];
    }

    function Now(): World
      reads this
    {
      World(buffer, posts)
    }

    method HttpPost(path: string, fact: Fact, slot: Option<nat>) returns (st: int)
      modifies this`posts
      ensures Now() == Send(env, old(Now()), path, fact, slot)
      ensures st == posts[|posts| - 1].status
    {
      st := env.reply(|posts|);
      posts := posts + [Post(path, fact, st, slot)];
    }

    method AppendLocalFact(fact: Fact, call: Call) returns (entry: Entry)
      modifies this`buffer
      ensures Now() == Append(old(Now()), call, fact) && entry == buffer[|buffer| - 1]
    {
      var entries := buffer;
      entry := Entry(call.id, call.bank, fact, call.timestamp, true);
      buffer := entries + [entry];
    }

    /** Posts every pending entry; the file is written only if some entry was acknowledged. */
    method FlushLocalPending(path: string) returns (synced: nat)
      modifies this
      ensures Now() == Flush(env, old(Now()), path)
      ensures synced == Pending(old(buffer)) - Pending(buffer)
    {
      var entries := buffer;
      synced := 0;
      ghost var w := Now();
      for i := 0 to |entries|
        invariant |entries| == |w.buffer| && buffer == w.buffer
        invariant World(entries, posts) == Flushed(env, w, path, i)
        invariant synced == Pending(w.buffer) - Pending(entries)
        invariant synced == 0 ==> entries == w.buffer
      {
        hide Pending;
        if entries[i].pending {
          var st := HttpPost(path, entries[i].fact, Some(i));
          if Ok(st) {
            PendingSettled(entries, i);
            entries := entries[i := entries[i].(pending := false)];
            synced := synced + 1;
          }
        }
      }
      if synced > 0 { buffer := entries; }
    }

    method ToolRetain(call: Call) returns (answer: Answer)
      modifies this
      ensures Now() == Retain(env, old(Now()), call)
      ensures answer == if SanitizePrivacy(env.table, Strip(env.table, call.content)) == "" then EmptyContent
                        else if 200 <= env.reply(|old(posts)|) < 300 then Upstream
                        else Buffered(call.id)
      ensures answer.Buffered? ==>
          buffer == old(buffer) + [Entry(call.id, call.bank, CleanFact(env.table, call), call.timestamp, true)]
      ensures answer.EmptyContent? ==> buffer == old(buffer) && posts == old(posts)
    {
      var fact := CleanFact(env.table, call);
      if fact.content == "" { return EmptyContent; }
      var path := env.quote(call.bank);
      var st := HttpPost(path, fact, None);
      if Ok(st) {
        var _ := FlushLocalPending(path);
        return Upstream;
      }
      var entry := AppendLocalFact(fact, call);
      return Buffered(entry.id);
    }
  }

  // ----- One flush -----

  function Pending(b: seq<Entry>): (n: nat)
    ensures n <= |b|
  {
    if b == [] then 0 else Pending(b[..|b| - 1]) + if b[|b| - 1].pending then 1 else 0
  }

  lemma {:induction false} PendingSettled(b: seq<Entry>, i: nat)
    requires i < |b| && b[i].pending
    ensures Pending(b[i := b[i].(pending := false)]) == Pending(b) - 1
    decreases |b|
  {
    var n := |b| - 1;
    var b' := b[i := b[i].(pending := false)];
    if i < n {
      PendingSettled(b[..n], i);
      assert b'[..n] == b[..n][i := b[i].(pending := false)];
    } else {
      assert b'[..n] == b[..n];
    }
  }

  /** A flush keeps length, order and every field but the flag, and only switches flags off. */
  ghost predicate OnlyFlagsOff(b: seq<Entry>, b': seq<Entry>) {
    |b'| == |b| && forall k :: 0 <= k < |b| ==> b'[k] == b[k] || b'[k] == b[k].(pending := false)
  }

  /** The positions of the entries a flush still has to post, in order. */
  function PendingSlots(b: seq<Entry>, n: nat): seq<nat>
    requires n <= |b|
  {
    if n == 0 then [] else PendingSlots(b, n - 1) + if b[n - 1].pending then [n - 1] else []
  }

  /** The requests a flush adds: one for each pending entry, in buffer order, each with that entry's fact. */
  ghost predicate PostsInOrder(path: string, b: seq<Entry>, slots: seq<nat>, added: seq<Post>) {
    |added| == |slots|
    && forall j :: 0 <= j < |slots| ==>
         slots[j] < |b| && added[j].slot == Some(slots[j]) && added[j].fact == b[slots[j]].fact && added[j].path == path
  }

  lemma {:induction false} FlushPosts(env: Env, w: World, path: string, n: nat)
    requires n <= |w.buffer|
    ensures var w' := Flushed(env, w, path, n);
      && |w'.posts| >= |w.posts| && w'.posts[..|w.posts|] == w.posts
      && PostsInOrder(path, w.buffer, PendingSlots(w.buffer, n), w'.posts[|w.posts|..])
      && OnlyFlagsOff(w.buffer, w'.buffer) && w'.buffer[n..] == w.buffer[n..]
  {
    if n == 0 {
      assert w.posts[|w.posts|..] == [];
    } else {
      FlushPosts(env, w, path, n - 1);
      var mid := Flushed(env, w, path, n - 1);
      var w' := Flushed(env, w, path, n);
      assert mid.buffer[n - 1] == mid.buffer[n - 1..][0] == w.buffer[n - 1];
      var added := mid.posts[|w.posts|..];
      if w.buffer[n - 1].pending {
        var last := w'.posts[|w'.posts| - 1];
        assert w'.posts[|w.posts|..] == added + [last];
        assert w'.posts[..|w.posts|] == mid.posts[..|w.posts|];
      }
      assert w'.buffer[n..] == mid.buffer[n - 1..][1..] == w.buffer[n - 1..][1..];
    }
  }

  /** An entry is still pending after a flush iff it was pending and its own request failed. */
  lemma {:induction false} FlushSettles(env: Env, w: World, path: string, n: nat, k: nat)
    requires k < n <= |w.buffer|
    ensures var w' := Flushed(env, w, path, n);
      w'.buffer[k].pending <==>
        w.buffer[k].pending && !(200 <= env.reply(|Flushed(env, w, path, k).posts|) < 300)
  {
    FlushPosts(env, w, path, k);
    var mid := Flushed(env, w, path, n - 1);
    if k < n - 1 {
      FlushSettles(env, w, path, n - 1, k);
    } else {
      assert mid.buffer[k] == mid.buffer[k..][0] == w.buffer[k..][0];
    }
  }

  /** When every request succeeds, a flush leaves nothing pending. */
  lemma AllAcknowledged(env: Env, w: World, path: string)
    requires forall n :: n >= |w.posts| ==> 200 <= env.reply(n) < 300
    ensures forall k :: 0 <= k < |w.buffer| ==> !Flush(env, w, path).buffer[k].pending
  {
    forall k | 0 <= k < |w.buffer| ensures !Flush(env, w, path).buffer[k].pending {
      FlushSettles(env, w, path, |w.buffer|, k);
      FlushPosts(env, w, path, k);
    }
  }

  // ----- One call -----

  /** Stripping leaves the stretch between the spaces at both ends. */
  lemma {:induction false} StripMeaning(t: CharTable, s: string) returns (i: nat, j: nat)
    ensures i <= j <= |s| && Strip(t, s) == s[i..j]
    ensures forall k :: 0 <= k < i || j <= k < |s| ==> t.space(s[k])
    ensures i < j ==> !t.space(s[i]) && !t.space(s[j - 1])
    decreases |s|
  {
    if s != "" && t.space(s[0]) {
      var u := s[1..];
      var a, b := StripMeaning(t, u);
      i, j := a + 1, b + 1;
      assert u[a..b] == s[i..j] && forall k :: 1 <= k < |s| ==> s[k] == u[k - 1];
    } else if s != "" && t.space(s[|s| - 1]) {
      i, j := StripMeaning(t, s[..|s| - 1]);
    } else {
      i, j := 0, |s|;
    }
  }

  lemma {:induction false} SlotsCounted(b: seq<Entry>, n: nat)
    requires n <= |b|
    ensures |PendingSlots(b, n)| == Pending(b[..n])
  {
    if n > 0 {
      SlotsCounted(b, n - 1);
      assert b[..n][..n - 1] == b[..n - 1];
    }
  }

  /** The request for buffer position `k` comes after those for the pending entries in front of it. */
  lemma OwnRequest(env: Env, w: World, path: string, k: nat)
    requires k <= |w.buffer|
    ensures |Flushed(env, w, path, k).posts| == |w.posts| + Pending(w.buffer[..k])
  {
    FlushPosts(env, w, path, k);
    SlotsCounted(w.buffer, k);
  }

  /** A flush posts every pending entry, in buffer order, and settles those whose own answer is 2xx. */
  lemma FlushMeaning(env: Env, w: World, path: string)
    ensures var w', n := Flush(env, w, path), |w.posts|;
      && n <= |w'.posts| && w'.posts[..n] == w.posts
      && PostsInOrder(path, w.buffer, PendingSlots(w.buffer, |w.buffer|), w'.posts[n..])
      && OnlyFlagsOff(w.buffer, w'.buffer)
      && forall k :: 0 <= k < |w.buffer| ==>
           (w'.buffer[k].pending <==>
            w.buffer[k].pending && !(200 <= env.reply(n + Pending(w.buffer[..k])) < 300))
  {
    hide Flushed, Pending, PendingSlots, PostsInOrder;
    FlushPosts(env, w, path, |w.buffer|);
    forall k | 0 <= k < |w.buffer|
      ensures Flush(env, w, path).buffer[k].pending <==>
        w.buffer[k].pending && !(200 <= env.reply(|w.posts| + Pending(w.buffer[..k])) < 300)
    {
      OwnRequest(env, w, path, k);
      FlushSettles(env, w, path, |w.buffer|, k);
    }
  }

  /**
   One call of `hindsight_retain`: empty content has no effect. Any other fact is posted once, and unless the answer
   is 2xx it is appended to the buffer as pending; after a 2xx answer every pending entry is posted in buffer order,
   and is settled iff its own answer is 2xx.
   */
  lemma RetainMeaning(env: Env, w: World, call: Call)
    ensures var content := SanitizePrivacy(env.table, Strip(env.table, call.content));
      var fact := Fact(content, SanitizePrivacy(env.table, Strip(env.table, call.context)));
      var w', n, path := Retain(env, w, call), |w.posts|, env.quote(call.bank);
      && (content == "" ==> w' == w)
      && (content != "" ==> n < |w'.posts| && w'.posts[..n + 1] == w.posts + [Post(path, fact, env.reply(n), None)])
      && (content != "" && !(200 <= env.reply(n) < 300) ==>
            |w'.posts| == n + 1 && w'.buffer == w.buffer + [Entry(call.id, call.bank, fact, call.timestamp, true)])
      && (content != "" && 200 <= env.reply(n) < 300 ==>
            && PostsInOrder(path, w.buffer, PendingSlots(w.buffer, |w.buffer|), w'.posts[n + 1..])
            && OnlyFlagsOff(w.buffer, w'.buffer)
            && forall k :: 0 <= k < |w.buffer| ==>
                 (w'.buffer[k].pending <==>
                  w.buffer[k].pending && !(200 <= env.reply(n + 1 + Pending(w.buffer[..k])) < 300)))
  {
    hide SanitizePrivacy, Strip, Flush, Pending, PendingSlots, PostsInOrder, OnlyFlagsOff;
    var fact, path := CleanFact(env.table, call), env.quote(call.bank);
    var sent := Send(env, w, path, fact, None);
    FlushMeaning(env, sent, path);
    assert sent.posts[..|w.posts|] == w.posts;
  }

  // ----- Conservation over a run -----

  /** The facts of the accepted calls. */
  function Facts(env: Env, calls: seq<Call>): multiset<Fact> {
    if calls == [] then multiset{}
    else
      var last := calls[|calls| - 1];
      Facts(env, calls[..|calls| - 1]) + if Accepted(env.table, last) then multiset{CleanFact(env.table, last)}
        else multiset{}
  }

  /** The facts the upstream acknowledged with a 2xx status. */
  function AckedFacts(posts: seq<Post>): multiset<Fact> {
    if posts == [] then multiset{}
    else
      var last := posts[|posts| - 1];
      AckedFacts(posts[..|posts| - 1]) + if 200 <= last.status < 300 then multiset{last.fact} else multiset{}
  }

  function PendingFacts(b: seq<Entry>): multiset<Fact> {
    if b == [] then multiset{}
    else
      var last := b[|b| - 1];
      PendingFacts(b[..|b| - 1]) + if last.pending then multiset{last.fact} else multiset{}
  }

  /** Everything the bridge still answers for: acknowledged upstream or pending in the buffer. */
  function Held(w: World): multiset<Fact> { AckedFacts(w.posts) + PendingFacts(w.buffer) }

  lemma {:induction false} PendingFactsSettled(b: seq<Entry>, i: nat)
    requires i < |b| && b[i].pending
    ensures PendingFacts(b) == PendingFacts(b[i := b[i].(pending := false)]) + multiset{b[i].fact}
    decreases |b|
  {
    var n := |b| - 1;
    var b' := b[i := b[i].(pending := false)];
    if i < n {
      PendingFactsSettled(b[..n], i);
      assert b'[..n] == b[..n][i := b[i].(pending := false)];
    } else {
      assert b'[..n] == b[..n];
    }
  }

  lemma SendAcks(env: Env, w: World, path: string, fact: Fact, slot: Option<nat>)
    ensures var sent := Send(env, w, path, fact, slot);
      AckedFacts(sent.posts) == AckedFacts(w.posts) + if Acked(sent) then multiset{fact} else multiset{}
  {
    var sent := Send(env, w, path, fact, slot);
    assert sent.posts[..|sent.posts| - 1] == w.posts;
  }

  lemma FlushOneHolds(env: Env, w: World, path: string, k: nat)
    requires k < |w.buffer|
    ensures Held(FlushOne(env, w, path, k)) == Held(w)
  {
    hide AckedFacts, PendingFacts;
    var e := w.buffer[k];
    if e.pending {
      SendAcks(env, w, path, e.fact, Some(k));
      PendingFactsSettled(w.buffer, k);
    }
  }

  lemma {:induction false} FlushHolds(env: Env, w: World, path: string, n: nat)
    requires n <= |w.buffer|
    ensures Held(Flushed(env, w, path, n)) == Held(w)
  {
    hide Held, FlushOne;
    if n > 0 {
      FlushHolds(env, w, path, n - 1);
      FlushOneHolds(env, Flushed(env, w, path, n - 1), path, n - 1);
    }
  }

  lemma RetainHolds(env: Env, w: World, call: Call)
    ensures Held(Retain(env, w, call))
         == Held(w) + if Accepted(env.table, call) then multiset{CleanFact(env.table, call)} else multiset{}
  {
    hide AckedFacts, PendingFacts, SanitizePrivacy, Flushed;
    if Accepted(env.table, call) {
      var fact := CleanFact(env.table, call);
      var path := env.quote(call.bank);
      var sent := Send(env, w, path, fact, None);
      SendAcks(env, w, path, fact, None);
      if Acked(sent) {
        FlushHolds(env, sent, path, |sent.buffer|);
      } else {
        AppendPends(sent, call, fact);
      }
    }
  }

  lemma AppendPends(w: World, call: Call, fact: Fact)
    ensures PendingFacts(Append(w, call, fact).buffer) == PendingFacts(w.buffer) + multiset{fact}
  {
    var b := Append(w, call, fact).buffer;
    assert b[..|b| - 1] == w.buffer;
  }

  /** Nothing is lost and nothing is made up: accepted facts are acknowledged or pending, each exactly once. */
  lemma {:induction false} FactsAreConserved(env: Env, w: World, calls: seq<Call>)
    ensures Held(RunCalls(env, w, calls)) == Held(w) + Facts(env, calls)
    decreases |calls|
  {
    hide Held, Accepted, CleanFact;
    if calls != [] {
      FactsAreConserved(env, w, calls[..|calls| - 1]);
      RetainHolds(env, RunCalls(env, w, calls[..|calls| - 1]), calls[|calls| - 1]);
    }
  }

  // ----- Each buffered entry is acknowledged at most once -----

  /** How often the upstream acknowledged the entry at buffer position `k`. */
  function Acks(posts: seq<Post>, k: nat): nat {
    if posts == [] then 0
    else
      var last := posts[|posts| - 1];
      Acks(posts[..|posts| - 1], k) + if last.slot == Some(k) && 200 <= last.status < 300 then 1 else 0
  }

  /** Every entry is either still pending and unacknowledged, or acknowledged once; old settled ones never again. */
  ghost predicate Accounted(w: World, settledAtStart: set<nat>) {
    && (forall k :: 0 <= k < |w.buffer| ==>
          Acks(w.posts, k) + (if w.buffer[k].pending then 1 else 0) == (if k in settledAtStart then 0 else 1))
    && (forall k: nat :: k >= |w.buffer| ==> Acks(w.posts, k) == 0)
    && (forall i :: 0 <= i < |w.posts| && w.posts[i].slot.Some? ==>
          w.posts[i].slot.value < |w.buffer| && w.posts[i].fact == w.buffer[w.posts[i].slot.value].fact)
  }

  lemma AcksStep(env: Env, w: World, path: string, fact: Fact, slot: Option<nat>, k: nat)
    ensures var sent := Send(env, w, path, fact, slot);
      Acks(sent.posts, k) == Acks(w.posts, k) + if slot == Some(k) && Acked(sent) then 1 else 0
  {
    var sent := Send(env, w, path, fact, slot);
    assert sent.posts[..|sent.posts| - 1] == w.posts;
  }

  lemma FlushOneAccounts(env: Env, w: World, path: string, k: nat, old': set<nat>)
    requires k < |w.buffer| && Accounted(w, old')
    ensures Accounted(FlushOne(env, w, path, k), old')
  {
    hide Acks;
    forall j: nat ensures var sent := Send(env, w, path, w.buffer[k].fact, Some(k));
      Acks(sent.posts, j) == Acks(w.posts, j) + if k == j && Acked(sent) then 1 else 0
    {
      AcksStep(env, w, path, w.buffer[k].fact, Some(k), j);
    }
  }

  lemma {:induction false} FlushAccounts(env: Env, w: World, path: string, n: nat, old': set<nat>)
    requires n <= |w.buffer| && Accounted(w, old')
    ensures Accounted(Flushed(env, w, path, n), old')
  {
    hide Accounted, FlushOne;
    if n > 0 {
      FlushAccounts(env, w, path, n - 1, old');
      FlushOneAccounts(env, Flushed(env, w, path, n - 1), path, n - 1, old');
    }
  }

  lemma DirectAccounts(env: Env, w: World, path: string, fact: Fact, old': set<nat>)
    requires Accounted(w, old')
    ensures Accounted(Send(env, w, path, fact, None), old')
  {
    hide Acks;
    forall j: nat ensures Acks(Send(env, w, path, fact, None).posts, j) == Acks(w.posts, j) {
      AcksStep(env, w, path, fact, None, j);
    }
  }

  lemma AppendAccounts(w: World, call: Call, fact: Fact, old': set<nat>)
    requires Accounted(w, old') && forall k :: k in old' ==> k < |w.buffer|
    ensures Accounted(Append(w, call, fact), old')
  {
    hide Acks;
  }

  lemma {:induction false} RunAccounts(env: Env, w: World, calls: seq<Call>, old': set<nat>)
    requires Accounted(w, old') && forall k :: k in old' ==> k < |w.buffer|
    ensures var w' := RunCalls(env, w, calls); Accounted(w', old') && |w'.buffer| >= |w.buffer|
    decreases |calls|
  {
    hide Accounted, Flushed, Accepted, CleanFact;
    if calls != [] {
      var call := calls[|calls| - 1];
      RunAccounts(env, w, calls[..|calls| - 1], old');
      var mid := RunCalls(env, w, calls[..|calls| - 1]);
      var fact := CleanFact(env.table, call);
      var path := env.quote(call.bank);
      var sent := Send(env, mid, path, fact, None);
      DirectAccounts(env, mid, path, fact, old');
      FlushAccounts(env, sent, path, |sent.buffer|, old');
      AppendAccounts(sent, call, fact, old');
    }
  }

  /** In a run from any buffer, an entry is acknowledged once if its flag went off, and otherwise never. */
  lemma EntriesAckedOnce(env: Env, buffer: seq<Entry>, calls: seq<Call>, k: nat)
    requires k < |RunCalls(env, World(buffer, []), calls).buffer|
    ensures var w := RunCalls(env, World(buffer, []), calls);
      Acks(w.posts, k) == if w.buffer[k].pending || (k < |buffer| && !buffer[k].pending) then 0 else 1
  {
    hide RunCalls, Acks;
    var settled := set j: nat | j < |buffer| && !buffer[j].pending;
    NoAcksYet(buffer, settled);
    RunAccounts(env, World(buffer, []), calls, settled);
  }

  lemma NoAcksYet(buffer: seq<Entry>, settled: set<nat>)
    requires settled == set j: nat | j < |buffer| && !buffer[j].pending
    ensures Accounted(World(buffer, []), settled)
  {
  }
}
