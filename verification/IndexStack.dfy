/** Rollbacks of the deployments on one collection behave as a stack. */
module IndexStack {
  import opened Catalog
  import opened HashChain
  import opened IndexOperations
  import opened IndexRollback

  /** The world after the first `k` deployments. */
  function After(w: World, qs: seq<DeployRequest>, k: nat, h: Hasher): World
    requires k <= |qs|
  {
    if k == 0 then w else DeployCall(After(w, qs, k - 1, h), qs[k - 1], h).world
  }

  /** Every request is on the collection, and succeeds. */
  ghost predicate AllDeployed(w: World, collection: string, qs: seq<DeployRequest>, h: Hasher) {
    forall k :: 0 <= k < |qs| ==> Succeeds(w, collection, qs, k, h)
  }

  ghost predicate Succeeds(w: World, collection: string, qs: seq<DeployRequest>, k: nat, h: Hasher)
    requires k < |qs|
  {
    qs[k].action.collection == collection && DeployCall(After(w, qs, k, h), qs[k], h).result.Deployed?
  }

  /** `uuid4` does not repeat. */
  ghost predicate DistinctIds(rows: seq<LedgerRow>) {
    forall i, j :: 0 <= i < j < |rows| ==> rows[i].content.id != rows[j].content.id
  }

  lemma {:induction false} FindAt(rows: seq<LedgerRow>, i: nat)
    requires i < |rows|
    requires forall j :: 0 <= j < i ==> rows[j].content.id != rows[i].content.id
    ensures Find(rows, rows[i].content.id) == Some(rows[i].content)
  {
    if i > 0 {
      FindAt(rows[1..], i - 1);
    }
  }

  /** One more deployment adds one index to the collection and its APPLIED entry to the ledger. */
  lemma Grows(w: World, collection: string, qs: seq<DeployRequest>, k: nat, h: Hasher)
    requires k < |qs| && Succeeds(w, collection, qs, k, h)
    ensures var before, after, index := After(w, qs, k, h), After(w, qs, k + 1, h), qs[k].action.index;
            && collection in before.indexes && index.name !in before.indexes[collection]
            && after.indexes == before.indexes[collection := before.indexes[collection][index.name := index.keys]]
            && |after.indexes[collection]| == |before.indexes[collection]| + 1
            && |after.ledger| == |before.ledger| + 2 && before.ledger <= after.ledger
            && after.ledger[|before.ledger| + 1].content
               == DeployEntry(qs[k], APPLIED, CurrentState(before.indexes, qs[k].action.database, collection),
                              CurrentState(after.indexes, qs[k].action.database, collection))
  {
    hide Listing, Named, GENESIS, View;
    var before := After(w, qs, k, h);
    DeployIff(before, qs[k], h);
    var m := before.indexes[collection];
    var index := qs[k].action.index;
    assert m[index.name := index.keys].Keys == m.Keys + {index.name};
    assert |m[index.name := index.keys].Keys| == |m[index.name := index.keys]| && |m.Keys| == |m|;
  }

  lemma {:induction false} Grown(w: World, collection: string, qs: seq<DeployRequest>, k: nat, n: nat, h: Hasher)
    requires k <= n <= |qs| && AllDeployed(w, collection, qs, h)
    requires 0 < |qs|
    ensures var lower, upper := After(w, qs, k, h), After(w, qs, n, h);
            && collection in lower.indexes && collection in upper.indexes
            && |upper.indexes[collection]| == |lower.indexes[collection]| + (n - k)
            && |upper.ledger| == |lower.ledger| + 2 * (n - k) && lower.ledger <= upper.ledger
  {
    hide DeployCall, GENESIS, After, CurrentState, DeployEntry;
    if n == k {
      if k == 0 {
        assert Succeeds(w, collection, qs, 0, h);
        Grows(w, collection, qs, 0, h);
      } else {
        assert Succeeds(w, collection, qs, k - 1, h);
        Grows(w, collection, qs, k - 1, h);
      }
    } else {
      Grown(w, collection, qs, k, n - 1, h);
      assert Succeeds(w, collection, qs, n - 1, h);
      Grows(w, collection, qs, n - 1, h);
    }
  }

  // ------------------------------------------------------------ attempts

  /** An attempt to undo one of the deployments, by its position. */
  datatype Attempt = Attempt(which: nat, actor: string, id: string, time: int)

  function Request(qs: seq<DeployRequest>, a: Attempt): RollbackRequest
    requires a.which < |qs|
  {
    RollbackRequest(qs[a.which].target, qs[a.which].ids.1, a.actor, a.id, a.time)
  }

  /** The deployments in place after an attempt: a stack pops only its top. */
  function Pop(depth: nat, which: nat): nat {
    if which + 1 == depth then depth - 1 else depth
  }

  ghost predicate InRange(qs: seq<DeployRequest>, attempts: seq<Attempt>) {
    forall i :: 0 <= i < |attempts| ==> attempts[i].which < |qs|
  }

  function Tried(w: World, qs: seq<DeployRequest>, attempts: seq<Attempt>, h: Hasher): World
    requires InRange(qs, attempts)
    decreases |attempts|
  {
    if attempts == [] then w
    else RollbackCall(Tried(w, qs, attempts[..|attempts| - 1], h), Request(qs, attempts[|attempts| - 1]), h).world
  }

  function Depth(n: nat, attempts: seq<Attempt>): nat {
    if attempts == [] then n else Pop(Depth(n, attempts[..|attempts| - 1]), attempts[|attempts| - 1].which)
  }

  /** `depth` of the deployments are in place, and every one of them is on record. */
  ghost predicate InPlace(w0: World, qs: seq<DeployRequest>, w: World, depth: nat, h: Hasher) {
    && depth <= |qs|
    && w.indexes == After(w0, qs, depth, h).indexes
    && After(w0, qs, |qs|, h).ledger <= w.ledger
  }

  lemma FindDeployment(w0: World, collection: string, qs: seq<DeployRequest>, w: World, k: nat, h: Hasher)
    requires AllDeployed(w0, collection, qs, h) && DistinctIds(After(w0, qs, |qs|, h).ledger)
    requires After(w0, qs, |qs|, h).ledger <= w.ledger && k < |qs|
    ensures var d := qs[k].action.database;
            Find(w.ledger, qs[k].ids.1)
            == Some(DeployEntry(qs[k], APPLIED, CurrentState(After(w0, qs, k, h).indexes, d, collection),
                                CurrentState(After(w0, qs, k + 1, h).indexes, d, collection)))
  {
    hide DeployCall, GENESIS, CurrentState, After;
    assert Succeeds(w0, collection, qs, k, h);
    Grows(w0, collection, qs, k, h);
    Grown(w0, collection, qs, k + 1, |qs|, h);
    var i := |After(w0, qs, k, h).ledger| + 1;
    var all := After(w0, qs, |qs|, h).ledger;
    assert all[i] == w.ledger[i] && all[i] == After(w0, qs, k + 1, h).ledger[i];
    assert forall j :: 0 <= j < i ==> w.ledger[j] == all[j];
    FindAt(w.ledger, i);
  }

  lemma SameIndexes(one: Indexes, other: Indexes, database: string, collection: string)
    requires one - {collection} == other - {collection}
    requires CurrentState(one, database, collection) == CurrentState(other, database, collection)
    ensures one == other
  {
    hide View;
    ViewInjective(NamespaceOf(one, collection), NamespaceOf(other, collection));
    forall c
      ensures c in one <==> c in other
      ensures c in one ==> one[c] == other[c]
    {
      if c != collection {
        assert c in one <==> c in one - {collection};
        assert c in other <==> c in other - {collection};
      }
    }
  }

  lemma SameState(one: Indexes, other: Indexes, database: string, collection: string)
    requires CurrentState(one, database, collection) == CurrentState(other, database, collection)
    requires collection in one && collection in other
    ensures one[collection] == other[collection]
  {
    hide View;
    ViewInjective(NamespaceOf(one, collection), NamespaceOf(other, collection));
  }

  /** An attempt succeeds exactly on the top of the stack, and pops it. */
  lemma {:induction false} OneAttempt(w0: World, collection: string, qs: seq<DeployRequest>,
                                         w: World, depth: nat, a: Attempt, h: Hasher)
    requires AllDeployed(w0, collection, qs, h) && DistinctIds(After(w0, qs, |qs|, h).ledger)
    requires Valid(w, h) && InPlace(w0, qs, w, depth, h) && a.which < |qs|
    ensures var r := RollbackCall(w, Request(qs, a), h);
            && (r.result.RolledBack? <==> a.which + 1 == depth)
            && (r.result.Blocked? ==> r.world == w)
            && InPlace(w0, qs, r.world, Pop(depth, a.which), h)
  {
    hide GENESIS, After, Valid, Find, RollbackCall, View, AllDeployed;
    var k, d := a.which, qs[a.which].action.database;
    var r := RollbackCall(w, Request(qs, a), h);
    FindDeployment(w0, collection, qs, w, k, h);
    RollbackIff(w, Request(qs, a), h);
    var left, reached := After(w0, qs, k, h).indexes, After(w0, qs, k + 1, h).indexes;
    Grown(w0, collection, qs, k, k + 1, h);
    Grown(w0, collection, qs, depth, |qs|, h);
    Grown(w0, collection, qs, k + 1, |qs|, h);
    if r.result.RolledBack? {
      SameState(w.indexes, reached, d, collection);
      assert depth == k + 1;
      TopGrows(w0, collection, qs, k, h);
      SameIndexes(r.world.indexes, left, d, collection);
    }
  }

  lemma TopGrows(w0: World, collection: string, qs: seq<DeployRequest>, k: nat, h: Hasher)
    requires AllDeployed(w0, collection, qs, h) && k < |qs|
    ensures After(w0, qs, k + 1, h).indexes - {collection} == After(w0, qs, k, h).indexes - {collection}
  {
    hide GENESIS, After, CurrentState, DeployCall;
    assert Succeeds(w0, collection, qs, k, h);
    Grows(w0, collection, qs, k, h);
  }

  /** Any attempts on any of the deployments, in any order and repeated at will, behave as a stack. */
  lemma {:induction false} StackDiscipline(w0: World, collection: string, qs: seq<DeployRequest>,
                                              attempts: seq<Attempt>, h: Hasher)
    requires qs != [] && AllDeployed(w0, collection, qs, h) && DistinctIds(After(w0, qs, |qs|, h).ledger)
    requires Valid(w0, h) && InRange(qs, attempts)
    ensures var w := Tried(After(w0, qs, |qs|, h), qs, attempts, h);
            && Valid(w, h) && InPlace(w0, qs, w, Depth(|qs|, attempts), h)
  {
    hide GENESIS, After, Valid, RollbackCall, AllDeployed;
    if attempts == [] {
      AfterValid(w0, qs, |qs|, h);
    } else {
      var init, last := attempts[..|attempts| - 1], attempts[|attempts| - 1];
      StackDiscipline(w0, collection, qs, init, h);
      var w := Tried(After(w0, qs, |qs|, h), qs, init, h);
      OneAttempt(w0, collection, qs, w, Depth(|qs|, init), last, h);
      RollbackValid(w, Request(qs, last), h);
    }
  }

  lemma {:induction false} AfterValid(w0: World, qs: seq<DeployRequest>, k: nat, h: Hasher)
    requires Valid(w0, h) && k <= |qs|
    ensures Valid(After(w0, qs, k, h), h)
  {
    hide Valid, DeployCall;
    if k > 0 {
      AfterValid(w0, qs, k - 1, h);
      DeployValid(After(w0, qs, k - 1, h), qs[k - 1], h);
    }
  }

  // ------------------------------------------------------------ undoing everything

  ghost predicate Reverse(n: nat, attempts: seq<Attempt>) {
    |attempts| == n && forall i :: 0 <= i < n ==> attempts[i].which == n - 1 - i
  }

  lemma {:induction false} ReverseDepth(n: nat, attempts: seq<Attempt>, k: nat)
    requires Reverse(n, attempts) && k <= n
    ensures Depth(n, attempts[..k]) == n - k
  {
    if k > 0 {
      ReverseDepth(n, attempts, k - 1);
      assert attempts[..k][..k - 1] == attempts[..k - 1];
    }
  }

  /** Undoing the deployments in reverse order always succeeds, restores the initial indexes and
      leaves a ledger that verifies. */
  lemma {:induction false} ReverseRestores(w0: World, collection: string, qs: seq<DeployRequest>,
                                              attempts: seq<Attempt>, h: Hasher)
    requires qs != [] && AllDeployed(w0, collection, qs, h) && DistinctIds(After(w0, qs, |qs|, h).ledger)
    requires Valid(w0, h) && InRange(qs, attempts) && Reverse(|qs|, attempts)
    ensures var top := After(w0, qs, |qs|, h);
            && Tried(top, qs, attempts, h).indexes == w0.indexes
            && Verifies(Tried(top, qs, attempts, h).ledger, h)
            && forall k :: 0 <= k < |qs| ==>
                 RollbackCall(Tried(top, qs, attempts[..k], h), Request(qs, attempts[k]), h).result.RolledBack?
  {
    hide GENESIS, RollbackCall, AllDeployed, Tried, Depth;
    var top := After(w0, qs, |qs|, h);
    StackDiscipline(w0, collection, qs, attempts, h);
    assert attempts[..|qs|] == attempts;
    ReverseDepth(|qs|, attempts, |qs|);
    forall k | 0 <= k < |qs|
      ensures RollbackCall(Tried(top, qs, attempts[..k], h), Request(qs, attempts[k]), h).result.RolledBack?
    {
      StackDiscipline(w0, collection, qs, attempts[..k], h);
      ReverseDepth(|qs|, attempts, k);
      OneAttempt(w0, collection, qs, Tried(top, qs, attempts[..k], h), |qs| - k, attempts[k], h);
    }
  }
}
