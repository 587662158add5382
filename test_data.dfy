/** The member the application seeds at start-up, and what logging in as that member gives. */
module TestData {
  import opened Wrappers
  import opened Members
  import opened LoginService

  const Tester: Member := Member(None, "test", "테스터", "test!")

  /** `init`: saves the test member into a fresh repository, where it gets id 1. */
  method Init() returns (repo: MemberRepository, seeded: Member)
    ensures fresh(repo) && repo.Valid()
    ensures seeded == Tester.(id := Some(1))
    ensures repo.store == map[1 := seeded] && repo.sequence == 1
  {
    repo := new MemberRepository();
    seeded := repo.Save(Tester);
  }

  /** With the seed data, ("test", "test!") logs the test member in and ("test", "wrong") is refused. */
  lemma SeededLogin(repo: MemberRepository)
    requires repo.Valid() && repo.store == map[1 := Tester.(id := Some(1))]
    ensures Login(repo, "test", "test!") == Some(Tester.(id := Some(1)))
    ensures Login(repo, "test", "wrong") == None
  {
    assert Stored(repo.store, Tester.(id := Some(1))) by {
      assert repo.store[1] == Tester.(id := Some(1));
    }
  }

  method SeedScenario() returns (accepted: Option<Member>, refused: Option<Member>)
    ensures accepted == Some(Member(Some(1), "test", "테스터", "test!"))
    ensures refused == None
  {
    var repo, seeded := Init();
    SeededLogin(repo);
    accepted := Login(repo, "test", "test!");
    refused := Login(repo, "test", "wrong");
  }
}
