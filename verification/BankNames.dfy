/**
 What the bridge does with the bank names of its callers: they are quoted into the request path and stored as
 they are, and neither is sanitized.  So exactly the bank names decide what paths and buffer say besides facts.
 */
module BankNames {
  import opened Options
  import opened Regex
  import opened Sanitizer
  import opened SanitizerSafety
  import opened ZeroLeak
  import opened OfflineBuffer
  import opened Delivery

  function Paths(posts: seq<Post>): set<string> {
    if posts == [] then {} else Paths(posts[..|posts| - 1]) + {posts[|posts| - 1].path}
  }

  /** The quoted banks of the accepted calls. */
  function Banks(env: Env, calls: seq<Call>): set<string> {
    if calls == [] then {}
    else
      var last := calls[|calls| - 1];
      Banks(env, calls[..|calls| - 1]) + if Accepted(env.table, last) then {env.quote(last.bank)} else {}
  }

  function StoredBanks(b: seq<Entry>): set<string> {
    if b == [] then {} else StoredBanks(b[..|b| - 1]) + {b[|b| - 1].bank}
  }

  /** The last of `calls` is accepted and its own request fails. */
  predicate LastFails(env: Env, buffer: seq<Entry>, calls: seq<Call>)
    requires calls != []
  {
    var m := |calls| - 1;
    Accepted(env.table, calls[m]) && !(200 <= env.reply(|RunCalls(env, Begin(buffer), calls[..m]).posts|) < 300)
  }

  /** The banks of the accepted calls whose own request failed. */
  function BufferedBanks(env: Env, buffer: seq<Entry>, calls: seq<Call>): set<string> {
    if calls == [] then {}
    else
      var m := |calls| - 1;
      BufferedBanks(env, buffer, calls[..m]) + if LastFails(env, buffer, calls) then {calls[m].bank} else {}
  }

  // ----- What is sent and stored besides facts -----

  lemma SendAddsPath(env: Env, w: World, path: string, fact: Fact, slot: Option<nat>)
    ensures Paths(Send(env, w, path, fact, slot).posts) == Paths(w.posts) + {path}
  {
    var posts := Send(env, w, path, fact, slot).posts;
    assert posts[..|posts| - 1] == w.posts;
  }

  lemma {:induction false} FlushAddsPath(env: Env, w: World, path: string, n: nat)
    requires n <= |w.buffer| && path in Paths(w.posts)
    ensures Paths(Flushed(env, w, path, n).posts) == Paths(w.posts)
  {
    hide Paths;
    if n > 0 {
      FlushAddsPath(env, w, path, n - 1);
      var mid := Flushed(env, w, path, n - 1);
      SendAddsPath(env, mid, path, mid.buffer[n - 1].fact, Some(n - 1));
    }
  }

  lemma {:induction false} SameBanks(b: seq<Entry>, b': seq<Entry>)
    requires |b| == |b'| && forall k :: 0 <= k < |b| ==> b'[k].bank == b[k].bank
    ensures StoredBanks(b') == StoredBanks(b)
  {
    if b != [] { SameBanks(b[..|b| - 1], b'[..|b| - 1]); }
  }

  lemma AppendAddsBank(w: World, call: Call, fact: Fact)
    ensures StoredBanks(Append(w, call, fact).buffer) == StoredBanks(w.buffer) + {call.bank}
  {
    var b := Append(w, call, fact).buffer;
    assert b[..|b| - 1] == w.buffer;
  }

  lemma RetainNames(env: Env, w: World, call: Call)
    ensures var w' := Retain(env, w, call); var accepted := Accepted(env.table, call);
      && Paths(w'.posts) == Paths(w.posts) + (if accepted then {env.quote(call.bank)} else {})
      && StoredBanks(w'.buffer) ==
           StoredBanks(w.buffer) + if accepted && !(200 <= env.reply(|w.posts|) < 300) then {call.bank} else {}
  {
    hide Paths, StoredBanks, CleanFact, Flushed, Accepted;
    if Accepted(env.table, call) {
      var fact, path := CleanFact(env.table, call), env.quote(call.bank);
      var sent := Send(env, w, path, fact, None);
      SendAddsPath(env, w, path, fact, None);
      if Acked(sent) {
        FlushAddsPath(env, sent, path, |sent.buffer|);
        FlushPosts(env, sent, path, |sent.buffer|);
        SameBanks(sent.buffer, Flush(env, sent, path).buffer);
      } else {
        AppendAddsBank(sent, call, fact);
      }
    }
  }

  /**
   From any buffer, the paths posted in a run are exactly the quoted banks of the accepted calls, and the bank
   names in the buffer are those it held and, unchanged, those of the calls whose own request failed.
   */
  lemma {:induction false} RunNames(env: Env, buffer: seq<Entry>, calls: seq<Call>)
    ensures var w := RunCalls(env, Begin(buffer), calls);
      && Paths(w.posts) == Banks(env, calls)
      && StoredBanks(w.buffer) == StoredBanks(buffer) + BufferedBanks(env, buffer, calls)
    decreases |calls|
  {
    hide Retain, Accepted, StoredBanks, Ok;
    if calls != [] {
      var m := |calls| - 1;
      RunNames(env, buffer, calls[..m]);
      RetainNames(env, RunCalls(env, Begin(buffer), calls[..m]), calls[m]);
    }
  }

  // ----- Exactly when all of it is clean -----

  lemma {:induction false} BanksAre(env: Env, calls: seq<Call>, p: string)
    ensures p in Banks(env, calls) <==>
      exists i :: 0 <= i < |calls| && Accepted(env.table, calls[i]) && env.quote(calls[i].bank) == p
    decreases |calls|
  {
    hide Accepted;
    if calls != [] {
      var m := |calls| - 1;
      BanksAre(env, calls[..m], p);
      assert calls == calls[..m] + [calls[m]];
    }
  }

  /**
   Facts and request paths are all clean iff no accepted call leaks and every accepted call's quoted bank is
   clean.
   */
  lemma RequestsAreCleanIff(env: Env, buffer: seq<Entry>, calls: seq<Call>)
    requires env.table.Valid() && forall f :: f in Stored(buffer) ==> CleanText(env.table, f)
    ensures var w := RunCalls(env, Begin(buffer), calls); var t := env.table;
      && ((forall f :: f in Sent(w.posts) ==> CleanText(t, f)) && (forall p :: p in Paths(w.posts) ==> Clean(t, p))
          <==> forall i :: 0 <= i < |calls| && Accepted(t, calls[i]) ==>
                 !Leaks(t, calls[i]) && Clean(t, env.quote(calls[i].bank)))
  {
    hide Sent, Stored, RunCalls, CleanText, Leaks, Accepted, Clean, Paths, Banks;
    RunIsCleanIff(env, buffer, calls);
    RunNames(env, buffer, calls);
    forall p ensures p in Banks(env, calls) <==>
      exists i :: 0 <= i < |calls| && Accepted(env.table, calls[i]) && env.quote(calls[i].bank) == p
    {
      BanksAre(env, calls, p);
    }
    forall i | 0 <= i < |calls| && Accepted(env.table, calls[i])
      ensures env.quote(calls[i].bank) in Banks(env, calls)
    {
      BanksAre(env, calls, env.quote(calls[i].bank));
    }
  }

  lemma {:induction false} BufferedBanksAre(env: Env, buffer: seq<Entry>, calls: seq<Call>, p: string)
    ensures p in BufferedBanks(env, buffer, calls) <==>
      exists i :: 0 <= i < |calls| && LastFails(env, buffer, calls[..i + 1]) && calls[i].bank == p
    decreases |calls|
  {
    hide LastFails;
    if calls != [] {
      var m := |calls| - 1;
      BufferedBanksAre(env, buffer, calls[..m], p);
      assert calls[..m + 1] == calls;
      forall i | 0 <= i < m ensures calls[..m][..i + 1] == calls[..i + 1] && calls[..m][i] == calls[i] {
      }
    }
  }

  /** The stored bank names are all clean iff those at the start and those of the calls that failed are. */
  lemma StoredBanksAreCleanIff(env: Env, buffer: seq<Entry>, calls: seq<Call>)
    ensures var w := RunCalls(env, Begin(buffer), calls); var t := env.table;
      (forall p :: p in StoredBanks(w.buffer) ==> Clean(t, p)) <==>
        && (forall p :: p in StoredBanks(buffer) ==> Clean(t, p))
        && (forall i :: 0 <= i < |calls| && LastFails(env, buffer, calls[..i + 1]) ==> Clean(t, calls[i].bank))
  {
    hide RunCalls, Clean, StoredBanks, BufferedBanks, LastFails;
    RunNames(env, buffer, calls);
    forall p ensures p in BufferedBanks(env, buffer, calls) <==>
      exists i :: 0 <= i < |calls| && LastFails(env, buffer, calls[..i + 1]) && calls[i].bank == p
    {
      BufferedBanksAre(env, buffer, calls, p);
    }
    forall i | 0 <= i < |calls| && LastFails(env, buffer, calls[..i + 1])
      ensures calls[i].bank in BufferedBanks(env, buffer, calls)
    {
      BufferedBanksAre(env, buffer, calls, calls[i].bank);
    }
  }

  // ----- A bank that is an address -----

  lemma AloneIsAddress(t: CharTable)
    requires t.Valid()
    ensures IpLen(t, false, "10.0.0.1") == 8
  {
    hide OctetsLen, Run;
    var u := "10.0.0.1";
    assert u[..3] == "10." && u[3..] == "0.0.1" && u[8..] == "";
    assert "0.0.1"[2..] == "0.1" && "0.1"[2..] == "1";
    OneDigit(t, "0.0.1", 3);
    OneDigit(t, "0.1", 2);
    RunIs(t, Digit, "1", 1);
    OctetsUnfold(t, "1", 1);
  }

  lemma AddressIsNotClean(t: CharTable)
    requires t.Valid()
    ensures !Clean(t, "10.0.0.1")
  {
    AloneIsAddress(t);
    hide IpLen, NoMatch, PathFree;
    CleanIsFree(t, "10.0.0.1");
  }

  lemma OneCallBanks(env: Env, call: Call)
    requires Accepted(env.table, call)
    ensures Banks(env, [call]) == {env.quote(call.bank)}
    ensures BufferedBanks(env, [], [call]) == if 200 <= env.reply(0) < 300 then {} else {call.bank}
  {
    hide Accepted, Ok;
    assert [call][..0] == [];
    assert RunCalls(env, Begin([]), []) == Begin([]);
  }

  /**
   However harmless its texts, a call to the bank `10.0.0.1` sends an address, and stores it when the request
   fails.
   */
  lemma BankLeaks(env: Env, call: Call)
    requires env.table.Valid() && Accepted(env.table, call) && !Leaks(env.table, call)
    requires call.bank == env.quote(call.bank) == "10.0.0.1"
    ensures var w := RunCalls(env, Begin([]), [call]); var t := env.table;
      && (forall f :: f in Sent(w.posts) ==> CleanText(t, f))
      && (exists p :: p in Paths(w.posts) && !Clean(t, p))
      && (!(200 <= env.reply(0) < 300) ==> exists p :: p in StoredBanks(w.buffer) && !Clean(t, p))
  {
    hide *;
    AddressIsNotClean(env.table);
    OneCallBanks(env, call);
    RunNames(env, [], [call]);
    NothingIsStored();
    RunIsCleanIff(env, [], [call]);
    assert call.bank in Banks(env, [call]);
  }

  lemma NothingIsStored()
    ensures Stored([]) == {}
  {
  }
}
