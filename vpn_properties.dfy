/**
 * What the VPN override reconciliation promises: the working list and the
 * seen-id list stay in step, resolution only appends, never appends a subnet
 * id twice, appends every matching subnet and nothing else, stops at the
 * first value outside the private ranges, and nothing is submitted after
 * such a value.
 */
module VpnProperties {
  import opened Common
  import opened VpnAccess

  /** `userSubnetIds` lists the subnet id of every working override, in order. */
  predicate Tracks(w: Working) {
    |w.overrides| == |w.seen| && forall k :: 0 <= k < |w.seen| ==> w.overrides[k].subnetId == w.seen[k]
  }

  /** `after` extends `before`, and each id in the extension occurs once in
      all of `after`. */
  predicate FreshTail(before: seq<int>, after: seq<int>) {
    before <= after
    && forall i, j :: |before| <= i < |after| && 0 <= j < |after| && i != j ==> after[i] != after[j]
  }

  /** `after` is `before` with new (subnetId, userId) entries appended, none
      of whose ids was seen or repeats. */
  predicate Grows(before: Working, after: Working, userId: int) {
    Tracks(before) && Tracks(after)
    && before.overrides <= after.overrides
    && (forall k :: |before.overrides| <= k < |after.overrides| ==> after.overrides[k] == Requested(after.seen[k], userId))
    && FreshTail(before.seen, after.seen)
  }

  lemma GrowsTransitive(a: Working, b: Working, c: Working, userId: int)
    requires Grows(a, b, userId) && Grows(b, c, userId)
    ensures Grows(a, c, userId)
  {
    forall i, j | |a.seen| <= i < |c.seen| && 0 <= j < |c.seen| && i != j
      ensures c.seen[i] != c.seen[j]
    {
      if i < |b.seen| && j < |b.seen| {
        assert b.seen[i] != b.seen[j];
      } else if i >= |b.seen| {
        assert c.seen[i] != c.seen[j];
      } else {
        assert c.seen[j] != c.seen[i];
      }
    }
  }

  /** Lines 74-84: both seeds keep the lists in step; add mode keeps the
      stored overrides in order, replace mode starts empty. */
  lemma SeedIsInStep(user: User, mode: Mode)
    ensures Tracks(Seed(user, mode))
    ensures mode == Replace ==> Seed(user, mode) == Working([], [])
    ensures mode == Add ==>
      (|Seed(user, mode).overrides| == |user.overrides|
       && forall k :: 0 <= k < |user.overrides| ==>
            Seed(user, mode).overrides[k] == Existing(user.overrides[k].id, user.overrides[k].subnetId, user.overrides[k].userId))
  {
  }

  lemma {:induction false} AbsorbGrows(w: Working, subnets: seq<Subnet>, req: Request, userId: int)
    requires Tracks(w)
    ensures Grows(w, Absorb(w, subnets, req, userId), userId)
  {
    if subnets != [] {
      var init := subnets[..|subnets| - 1];
      var mid := Absorb(w, init, req, userId);
      AbsorbGrows(w, init, req, userId);
      var after := Consider(mid, subnets[|subnets| - 1], req, userId);
      assert Grows(mid, after, userId);
      GrowsTransitive(w, mid, after, userId);
    }
  }

  /** Lines 94-99 and 110-116: every subnet that matches the request ends up
      in the seen list (matching does not stop at the first hit), and every
      id the request appends belongs to a matching subnet. */
  lemma {:induction false} AbsorbMatchesExactly(w: Working, subnets: seq<Subnet>, req: Request, userId: int)
    ensures w.seen <= Absorb(w, subnets, req, userId).seen
    ensures forall i :: 0 <= i < |subnets| && Matches(subnets[i], req) ==>
              subnets[i].id in Absorb(w, subnets, req, userId).seen
    ensures forall id :: id in Absorb(w, subnets, req, userId).seen[|w.seen|..] ==>
              exists i :: 0 <= i < |subnets| && Matches(subnets[i], req) && subnets[i].id == id
  {
    if subnets != [] {
      var init, last := subnets[..|subnets| - 1], subnets[|subnets| - 1];
      AbsorbMatchesExactly(w, init, req, userId);
      var mid := Absorb(w, init, req, userId);
      var after := Consider(mid, last, req, userId);
      assert mid.seen <= after.seen;
      forall id | id in after.seen[|w.seen|..]
        ensures exists i :: 0 <= i < |subnets| && Matches(subnets[i], req) && subnets[i].id == id
      {
        if id in mid.seen[|w.seen|..] {
          var i :| 0 <= i < |init| && Matches(init[i], req) && init[i].id == id;
          assert subnets[i] == init[i];
        } else {
          assert after.seen[|w.seen|..] == mid.seen[|w.seen|..] + [last.id];
          assert subnets[|subnets| - 1] == last && Matches(last, req);
        }
      }
      forall i | 0 <= i < |subnets| && Matches(subnets[i], req) ensures subnets[i].id in after.seen {
        if i < |init| {
          assert subnets[i] == init[i];
        }
      }
    }
  }

  /** Lines 100-101 and 117-118: a value that matches no subnet leaves both
      lists as they were. */
  lemma {:induction false} AbsorbWithoutMatch(w: Working, subnets: seq<Subnet>, req: Request, userId: int)
    requires !AnyMatch(subnets, req)
    ensures Absorb(w, subnets, req, userId) == w
  {
    if subnets != [] {
      var init := subnets[..|subnets| - 1];
      assert !AnyMatch(init, req) by {
        forall i | 0 <= i < |init| ensures !Matches(init[i], req) {
          assert init[i] == subnets[i];
        }
      }
      AbsorbWithoutMatch(w, init, req, userId);
    }
  }

  /** Resolving a list of requests only appends fresh (subnetId, userId)
      entries; every warning is an accepted value that matched no subnet. */
  lemma {:induction false} ResolveGrows(w: Working, subnets: seq<Subnet>, reqs: seq<Request>, userId: int)
    requires Tracks(w)
    ensures var res := Resolve(w, subnets, reqs, userId);
      Grows(w, res.working, userId)
      && forall r :: r in res.warnings ==> r in reqs && IsPrivateRange(r.text) && !AnyMatch(subnets, r)
    decreases |reqs|
  {
    if reqs != [] && IsPrivateRange(reqs[0].text) {
      var mid := Absorb(w, subnets, reqs[0], userId);
      AbsorbGrows(w, subnets, reqs[0], userId);
      ResolveGrows(mid, subnets, reqs[1..], userId);
      GrowsTransitive(w, mid, Resolve(mid, subnets, reqs[1..], userId).working, userId);
    }
  }

  /** Lines 92, 102-104, 109 and 119-121: resolution is rejected exactly when
      some value lies outside `10.` and `100.`, and then at the first such
      value. */
  lemma {:induction false} ResolveRejectsFirstPublic(w: Working, subnets: seq<Subnet>, reqs: seq<Request>, userId: int)
    ensures var res := Resolve(w, subnets, reqs, userId);
      (res.rejected.None? <==> forall k :: 0 <= k < |reqs| ==> IsPrivateRange(reqs[k].text))
      && (res.rejected.Some? ==>
            exists k :: 0 <= k < |reqs| && reqs[k].text == res.rejected.value && !IsPrivateRange(reqs[k].text)
              && forall j :: 0 <= j < k ==> IsPrivateRange(reqs[j].text))
    decreases |reqs|
  {
    if reqs != [] && IsPrivateRange(reqs[0].text) {
      var mid := Absorb(w, subnets, reqs[0], userId);
      ResolveRejectsFirstPublic(mid, subnets, reqs[1..], userId);
      var res := Resolve(mid, subnets, reqs[1..], userId);
      if res.rejected.Some? {
        var k :| 0 <= k < |reqs[1..]| && reqs[1..][k].text == res.rejected.value && !IsPrivateRange(reqs[1..][k].text)
          && forall j :: 0 <= j < k ==> IsPrivateRange(reqs[1..][j].text);
        assert forall j :: 0 <= j < k + 1 ==> IsPrivateRange(reqs[j].text) by {
          forall j | 0 <= j < k + 1 ensures IsPrivateRange(reqs[j].text) {
            if j > 0 {
              assert reqs[j] == reqs[1..][j - 1];
            }
          }
        }
        assert reqs[k + 1] == reqs[1..][k];
      } else {
        forall k | 0 <= k < |reqs| ensures IsPrivateRange(reqs[k].text) {
          if k > 0 {
            assert reqs[k] == reqs[1..][k - 1];
          }
        }
      }
    }
  }

  /** A run with a value outside the private ranges ends in that error, at
      the first such value: the stored overrides have been deleted, but no
      flag is switched on, nothing is created and the VPN user is not pushed. */
  lemma PublicValueAbortsRun(args: Args, users: seq<User>, subnets: seq<Subnet>)
    requires CheckArgs(args).Ok? && FindUser(users, args.updateUser.value).Some?
    requires exists k :: 0 <= k < |Requests(args)| && !IsPrivateRange(Requests(args)[k].text)
    ensures var user := FindUser(users, args.updateUser.value).value;
      var out := Run(args, users, subnets);
      out.error.Some? && out.error.value.NotPrivate?
      && (exists k :: 0 <= k < |Requests(args)| && Requests(args)[k].text == out.error.value.input
            && !IsPrivateRange(out.error.value.input)
            && forall j :: 0 <= j < k ==> IsPrivateRange(Requests(args)[j].text))
      && Deletions(user) <= out.actions
      && forall a :: a in out.actions ==> a.DeleteOverride? || a.Warn?
  {
    var user := FindUser(users, args.updateUser.value).value;
    ResolveRejectsFirstPublic(Seed(user, CheckArgs(args).value), subnets, Requests(args), user.id);
  }

  /** A run whose values all lie in the private ranges deletes the stored
      overrides, warns about values that matched nothing, switches on the
      flags that are off, and submits the seed followed by fresh
      (subnetId, userId) entries, each subnet id once, before pushing the
      VPN user. */
  lemma PrivateValuesSubmitOverrides(args: Args, users: seq<User>, subnets: seq<Subnet>)
    requires CheckArgs(args).Ok? && FindUser(users, args.updateUser.value).Some?
    requires forall k :: 0 <= k < |Requests(args)| ==> IsPrivateRange(Requests(args)[k].text)
    ensures var user := FindUser(users, args.updateUser.value).value;
      var seed := Seed(user, CheckArgs(args).value);
      var res := Resolve(seed, subnets, Requests(args), user.id);
      var out := Run(args, users, subnets);
      out.error.None?
      && out.actions == Deletions(user) + WarnActions(res.warnings) + FlagActions(user)
                        + [CreateOverrides(res.working.overrides), UpdateVpnUser(user.id)]
      && Grows(seed, res.working, user.id)
  {
    var user := FindUser(users, args.updateUser.value).value;
    var seed := Seed(user, CheckArgs(args).value);
    ResolveRejectsFirstPublic(seed, subnets, Requests(args), user.id);
    SeedIsInStep(user, CheckArgs(args).value);
    ResolveGrows(seed, subnets, Requests(args), user.id);
  }

  /** Nothing is deleted, created or switched on until the arguments pass
      and the user is found. */
  lemma NoActionBeforeChecks(args: Args, users: seq<User>, subnets: seq<Subnet>)
    requires CheckArgs(args).Err? || FindUser(users, args.updateUser.value).None?
    ensures Run(args, users, subnets).actions == []
    ensures CheckArgs(args).Err? ==> Run(args, users, subnets).error == Some(CheckArgs(args).error)
    ensures CheckArgs(args).Ok? ==> Run(args, users, subnets).error == Some(UserNotFound(args.updateUser.value))
  {
  }
}
