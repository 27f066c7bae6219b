/** The contributors referential of src/contributors-referential.ts: the set
    of logins already counted in the current attempt. The module-level `Set`
    becomes an explicit value threaded by the callers. */
module Referential {
  import opened Records

  type Referential = set<string>

  /** The logins of a contributors list, without repetition. */
  ghost function Logins(contributors: seq<Contributor>): set<string> {
    set i | 0 <= i < |contributors| :: contributors[i].login
  }

  predicate HasAlready(r: Referential, login: string) {
    login in r
  }

  /** A fresh, empty referential. */
  function ResetContributors(): (r: Referential)
    ensures forall login :: !HasAlready(r, login)
  {
    {}
  }

  /** Records one login as seen; nothing already seen is forgotten. */
  function AddContributors(r: Referential, login: string): (r': Referential)
    ensures HasAlready(r', login)
    ensures forall x :: HasAlready(r, x) ==> HasAlready(r', x)
    ensures forall x :: HasAlready(r', x) ==> HasAlready(r, x) || x == login
  {
    r + {login}
  }

  lemma LoginsCons(contributors: seq<Contributor>)
    requires |contributors| > 0
    ensures Logins(contributors) == {contributors[0].login} + Logins(contributors[1..])
  {
    var tail := contributors[1..];
    forall x | x in Logins(contributors)
      ensures x in {contributors[0].login} + Logins(tail)
    {
      var i :| 0 <= i < |contributors| && contributors[i].login == x;
      if i > 0 {
        assert tail[i - 1].login == x;
      }
    }
    forall x | x in Logins(tail)
      ensures x in Logins(contributors)
    {
      var i :| 0 <= i < |tail| && tail[i].login == x;
      assert contributors[i + 1].login == x;
    }
  }

  lemma LoginsBound(contributors: seq<Contributor>)
    ensures |Logins(contributors)| <= |contributors|
    decreases |contributors|
  {
    if |contributors| > 0 {
      LoginsCons(contributors);
      LoginsBound(contributors[1..]);
    }
  }

  /** Adding to a set grows it by exactly the part that was new. */
  lemma UnionSize(r: set<string>, added: set<string>)
    ensures |r + added| == |r| + |added - r|
  {
    assert r + added == r + (added - r);
    assert r !! (added - r);
  }

  lemma SubsetSize(a: set<string>, b: set<string>)
    requires a <= b
    ensures |a| <= |b|
  {
    assert b == a + (b - a);
    assert a !! (b - a);
  }

  /** `computeContributorsCountNew`: walks the list in order, adding every
      login not yet seen and counting it. The pair holds the count and the
      referential after the walk: every listed login is now in it, nothing
      was removed, and it grew by exactly the count. */
  function CountNew(r: Referential, contributors: seq<Contributor>): (res: (nat, Referential))
    ensures res.1 == r + Logins(contributors)
    ensures |res.1| == |r| + res.0
    decreases |contributors|
  {
    if |contributors| == 0 then
      (0, r)
    else
      var login := contributors[0].login;
      var tail := contributors[1..];
      LoginsCons(contributors);
      if HasAlready(r, login) then
        var rest := CountNew(r, tail);
        assert r + Logins(contributors) == r + Logins(tail);
        rest
      else
        var seen := AddContributors(r, login);
        assert seen == r + {login} && |seen| == |r| + 1;
        var rest := CountNew(seen, tail);
        assert rest.1 == r + Logins(contributors);
        (rest.0 + 1, rest.1)
  }

  /** The count is the number of distinct listed logins that were not seen
      before the call; a login repeated in the list counts at most once. */
  lemma CountNewIsNewLogins(r: Referential, contributors: seq<Contributor>)
    ensures CountNew(r, contributors).0 == |Logins(contributors) - r|
  {
    UnionSize(r, Logins(contributors));
  }

  /** The count never exceeds the number of listed contributors. */
  lemma CountNewBound(r: Referential, contributors: seq<Contributor>)
    ensures CountNew(r, contributors).0 <= |contributors|
  {
    CountNewIsNewLogins(r, contributors);
    LoginsBound(contributors);
    assert Logins(contributors) - r <= Logins(contributors);
  }

  /** Counting the same list twice in a row finds nothing new the second time. */
  lemma CountNewTwice(r: Referential, contributors: seq<Contributor>)
    ensures CountNew(CountNew(r, contributors).1, contributors).0 == 0
  {
    var r1 := CountNew(r, contributors).1;
    CountNewIsNewLogins(r1, contributors);
    assert Logins(contributors) - r1 == {};
  }

  /** A login that was already seen never raises the count: the more the
      referential holds, the smaller the count for the same list. */
  lemma CountNewAntitone(r1: Referential, r2: Referential, contributors: seq<Contributor>)
    requires r1 <= r2
    ensures CountNew(r2, contributors).0 <= CountNew(r1, contributors).0
  {
    CountNewIsNewLogins(r1, contributors);
    CountNewIsNewLogins(r2, contributors);
    SubsetSize(Logins(contributors) - r2, Logins(contributors) - r1);
  }

  /** Three repositories sharing the single contributor `earth`, counted one
      after the other from an empty referential, give 1, 0 and 0; after a
      reset the same list counts 1 again. */
  lemma SharedContributorExample()
    ensures var r0 := ResetContributors();
            var a := CountNew(r0, [Contributor("earth")]);
            var b := CountNew(a.1, [Contributor("earth")]);
            var c := CountNew(b.1, [Contributor("earth")]);
            a.0 == 1 && b.0 == 0 && c.0 == 0
            && CountNew(ResetContributors(), [Contributor("earth")]).0 == 1
  {
    var earth := [Contributor("earth")];
    LoginsCons(earth);
    assert Logins(earth[1..]) == {};
  }
}
