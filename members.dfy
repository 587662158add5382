/**
 * The member record and the in-memory member repository.  The repository's
 * `store` and `sequence` are static fields in Java, so one repository object
 * stands for all of them here.
 */
module Members {
  import opened Wrappers

  /** A member; `id` is `null` until the repository assigns one. */
  datatype Member = Member(id: Option<int>, loginId: string, name: string, password: string)

  /** Every key of `store` is the id of the member stored under it. */
  ghost predicate KeysAreIds(store: map<int, Member>)
  {
    forall k :: k in store ==> store[k].id == Some(k)
  }

  /** `m` is one of the values of `store` (stated over the keys). */
  ghost predicate Stored(store: map<int, Member>, m: Member)
  {
    exists k :: k in store && store[k] == m
  }

  /**
   * The members stored under the ids 1..n, in ascending id order.  A `HashMap`
   * gives no iteration order; this fixes one.
   */
  function ValuesUpTo(store: map<int, Member>, n: int): (all: seq<Member>)
    requires KeysAreIds(store)
    decreases if n < 0 then 0 else n
    ensures forall i :: 0 <= i < |all| ==> all[i].id.Some? && 1 <= all[i].id.value <= n
    ensures forall i, j :: 0 <= i < j < |all| ==> all[i].id.value < all[j].id.value
    ensures forall i :: 0 <= i < |all| ==> all[i].id.value in store && store[all[i].id.value] == all[i]
    ensures forall k :: 1 <= k <= n && k in store ==> store[k] in all
  {
    if n < 1 then []
    else
      var rest := ValuesUpTo(store, n - 1);
      if n in store then rest + [store[n]] else rest
  }

  /** The first member of `ms` whose login id is `loginId` (a `findFirst` over a stream). */
  function FirstWithLoginId(ms: seq<Member>, loginId: string): (r: Option<Member>)
    ensures r.None? <==> forall i :: 0 <= i < |ms| ==> ms[i].loginId != loginId
    ensures r.Some? ==> exists i :: 0 <= i < |ms| && ms[i] == r.value && r.value.loginId == loginId &&
                                    forall j :: 0 <= j < i ==> ms[j].loginId != loginId
  {
    if ms == [] then None
    else if ms[0].loginId == loginId then Some(ms[0])
    else
      var r := FirstWithLoginId(ms[1..], loginId);
      assert forall i :: 1 <= i < |ms| ==> ms[i] == ms[1..][i - 1];
      r
  }

  /** In a list sorted by id, the first member with a login id has the smallest such id. */
  lemma {:induction false} FirstIsMinimal(ms: seq<Member>, loginId: string)
    requires forall i :: 0 <= i < |ms| ==> ms[i].id.Some?
    requires forall i, j :: 0 <= i < j < |ms| ==> ms[i].id.value < ms[j].id.value
    requires FirstWithLoginId(ms, loginId).Some?
    ensures forall j :: 0 <= j < |ms| && ms[j].loginId == loginId ==>
              FirstWithLoginId(ms, loginId).value.id.value <= ms[j].id.value
  {
    if ms[0].loginId != loginId {
      var tail := ms[1..];
      FirstIsMinimal(tail, loginId);
      forall j | 0 <= j < |ms| && ms[j].loginId == loginId
        ensures FirstWithLoginId(ms, loginId).value.id.value <= ms[j].id.value
      {
        assert j > 0 && ms[j] == tail[j - 1];
      }
    }
  }

  lemma FirstHasSmallestId(store: map<int, Member>, n: int, loginId: string)
    requires KeysAreIds(store)
    requires FirstWithLoginId(ValuesUpTo(store, n), loginId).Some?
    requires forall k :: k in store ==> 1 <= k <= n
    ensures var r := FirstWithLoginId(ValuesUpTo(store, n), loginId).value;
            r.id.Some? && forall k :: k in store && store[k].loginId == loginId ==> r.id.value <= k
  {
    var all := ValuesUpTo(store, n);
    FirstIsMinimal(all, loginId);
    forall k | k in store && store[k].loginId == loginId
      ensures FirstWithLoginId(all, loginId).value.id.value <= k
    {
      var j :| 0 <= j < |all| && all[j] == store[k];
    }
  }

  class MemberRepository {
    var store: map<int, Member>
    var sequence: int

    /** Ids come from the counter: every stored id lies in 1..sequence and is its key. */
    ghost predicate Valid()
      reads this
    {
      && sequence >= 0
      && KeysAreIds(store)
      && forall k :: k in store ==> 1 <= k <= sequence
    }

    constructor ()
      ensures Valid() && store == map[] && sequence == 0
    {
      store := map[];
      sequence := 0;
    }

    /** `save`: assigns the next id, stores the member under it and returns it. */
    method Save(member: Member) returns (saved: Member)
      requires Valid()
      modifies this
      ensures Valid()
      ensures sequence == old(sequence) + 1
      ensures saved == member.(id := Some(sequence))
      ensures sequence !in old(store)
      ensures store == old(store)[sequence := saved]
      ensures FindById(sequence) == Some(saved)
    {
      sequence := sequence + 1;
      saved := member.(id := Some(sequence));
      store := store[sequence := saved];
    }

    /** `findById`: the member stored under `id`, or `null`. */
    function FindById(id: int): (r: Option<Member>)
      reads this
      ensures r.Some? <==> id in store
      ensures Valid() && r.Some? ==> r.value.id == Some(id) && 1 <= id <= sequence
      ensures Valid() && (id < 1 || id > sequence) ==> r.None?
    {
      if id in store then Some(store[id]) else None
    }

    /**
     * `findAll`: a new list of exactly the stored members, each once.  The
     * result is a value, so changing it cannot change the store.
     */
    function FindAll(): (all: seq<Member>)
      reads this
      requires Valid()
      ensures forall m :: m in all <==> Stored(store, m)
      ensures forall i :: 0 <= i < |all| ==> all[i].id.Some?
      ensures forall i, j :: 0 <= i < j < |all| ==> all[i].id.value < all[j].id.value
      ensures forall i, j :: 0 <= i < j < |all| ==> all[i] != all[j]
    {
      ValuesUpTo(store, sequence)
    }

    /** `findByLoginId`: the first stored member with that login id, if any. */
    function FindByLoginId(loginId: string): (r: Option<Member>)
      reads this
      requires Valid()
      ensures r.Some? ==> Stored(store, r.value) && r.value.loginId == loginId
      ensures r.None? <==> forall m :: Stored(store, m) ==> m.loginId != loginId
      ensures r.Some? ==> r.value.id.Some? && forall k :: k in store && store[k].loginId == loginId ==> r.value.id.value <= k
    {
      var all := FindAll();
      var r := FirstWithLoginId(all, loginId);
      assert r.None? <==> forall m :: Stored(store, m) ==> m.loginId != loginId by {
        if r.None? {
          forall m | Stored(store, m) ensures m.loginId != loginId {
            assert m in all;
            var i :| 0 <= i < |all| && all[i] == m;
          }
        }
      }
      if r.Some? then FirstHasSmallestId(store, sequence, loginId); r else r
    }

    /** `clearStore`: empties the store; the id counter keeps its value. */
    method ClearStore()
      requires Valid()
      modifies this
      ensures Valid()
      ensures store == map[] && sequence == old(sequence)
      ensures forall id :: FindById(id).None?
    {
      store := map[];
    }
  }

  /** Successive saves hand out strictly increasing, hence distinct, ids. */
  method SaveTwice(repo: MemberRepository, a: Member, b: Member) returns (first: Member, second: Member)
    requires repo.Valid()
    modifies repo
    ensures repo.Valid()
    ensures first.id.Some? && second.id.Some? && first.id.value < second.id.value
    ensures repo.FindById(first.id.value) == Some(first) && repo.FindById(second.id.value) == Some(second)
    ensures repo.store == old(repo.store)[first.id.value := first][second.id.value := second]
  {
    first := repo.Save(a);
    second := repo.Save(b);
  }
}
