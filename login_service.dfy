/** The credential check: look the login id up and compare the password. */
module LoginService {
  import opened Wrappers
  import opened Members

  /** No two stored members share a login id (sign-up does not enforce this). */
  ghost predicate UniqueLoginIds(repo: MemberRepository)
    reads repo
  {
    forall a, b :: a in repo.store && b in repo.store && repo.store[a].loginId == repo.store[b].loginId ==> a == b
  }

  /**
   * `login`: the member found by `loginId` when its password equals
   * `password`, otherwise `null`.  Being a function it cannot change the
   * repository.
   */
  function Login(repo: MemberRepository, loginId: string, password: string): (r: Option<Member>)
    reads repo
    requires repo.Valid()
    ensures r.Some? ==> Stored(repo.store, r.value) && r.value.loginId == loginId && r.value.password == password
    ensures (forall k :: k in repo.store ==> repo.store[k].loginId != loginId) ==> r.None?
    ensures repo.FindByLoginId(loginId).Some? && repo.FindByLoginId(loginId).value.password != password ==> r.None?
    ensures repo.FindByLoginId(loginId).Some? && repo.FindByLoginId(loginId).value.password == password ==>
              r == repo.FindByLoginId(loginId)
    ensures UniqueLoginIds(repo) ==>
              (r.Some? <==> exists k :: k in repo.store && repo.store[k].loginId == loginId && repo.store[k].password == password)
  {
    var found := repo.FindByLoginId(loginId);
    if found.Some? && found.value.password == password then found else None
  }
}
