/**
 * Reconciling a user's VPN subnet overrides: the argument checks, the
 * working override list seeded by mode, the resolution of each requested
 * subnet label or IP address against the account's subnets, and the flags
 * switched on before the new list is submitted.
 *
 * Remote reads are inputs (the account's users with their details, its
 * subnets); remote writes and console warnings are the `Action`s a run
 * issues, in order.
 */
module VpnAccess {
  import opened Common

  /** An override as stored for the user: it has its own id. */
  datatype StoredOverride = StoredOverride(id: int, subnetId: int, userId: int)

  /** An entry of the working override list: a stored override kept in add
      mode, or a new (subnetId, userId) pair. */
  datatype Override =
    | Existing(id: int, subnetId: int, userId: int)
    | Requested(subnetId: int, userId: int)

  datatype User = User(
    id: int,
    username: string,
    overrides: seq<StoredOverride>,
    sslVpnAllowedFlag: bool,
    vpnManualConfig: bool)

  datatype Subnet = Subnet(id: int, displayLabel: string, ipAddresses: seq<string>)

  /** The command line: `--ip` and `--subnet` are absent (`None`) or a list,
      possibly empty. */
  datatype Args = Args(
    updateUser: Option<string>,
    add: bool,
    replace: bool,
    ip: Option<seq<string>>,
    subnet: Option<seq<string>>)

  datatype Mode = Add | Replace

  datatype VpnError =
    | NoUserGiven
    | BothModes
    | NoMode
    | NoTargets
    | UserNotFound(name: string)
    | NotPrivate(input: string)

  datatype Request = SubnetLabel(text: string) | IpAddress(text: string)

  /** What a run does to the account, and the warnings it prints. */
  datatype Action =
    | DeleteOverride(overrideId: int)
    | Warn(request: Request)
    | EnableSslVpn(userId: int)
    | EnableManualConfig(userId: int)
    | CreateOverrides(overrides: seq<Override>)
    | UpdateVpnUser(userId: int)

  /** `newOverrides` and `userSubnetIds`. */
  datatype Working = Working(overrides: seq<Override>, seen: seq<int>)

  datatype Outcome = Outcome(actions: seq<Action>, error: Option<VpnError>)

  // ---------------------------------------------------------------------------
  // Arguments and the user

  /** Lines 52-66: the argument checks, in the source's order. The run goes on
      exactly when a user is named, exactly one mode is chosen and at least
      one of the two lists is given (an empty list counts as given). */
  function CheckArgs(args: Args): (r: Result<Mode, VpnError>)
    ensures r.Ok? <==> args.updateUser.Some? && args.add != args.replace && (args.ip.Some? || args.subnet.Some?)
    ensures r.Ok? ==> (r.value == Add <==> args.add)
    ensures args.updateUser.None? ==> r == Err(NoUserGiven)
    ensures args.updateUser.Some? && args.add && args.replace ==> r == Err(BothModes)
    ensures args.updateUser.Some? && !args.add && !args.replace ==> r == Err(NoMode)
    ensures args.updateUser.Some? && args.add != args.replace && args.ip.None? && args.subnet.None? ==> r == Err(NoTargets)
  {
    if args.updateUser.None? then Err(NoUserGiven)
    else if args.add && args.replace then Err(BothModes)
    else if !args.add && !args.replace then Err(NoMode)
    else if args.ip.None? && args.subnet.None? then Err(NoTargets)
    else Ok(if args.add then Add else Replace)
  }

  /** The user the lookup loop ends up holding: the last one with the name. */
  function FindUser(users: seq<User>, name: string): Option<User> {
    if users == [] then None
    else if users[|users| - 1].username == name then Some(users[|users| - 1])
    else FindUser(users[..|users| - 1], name)
  }

  lemma {:induction false} FindUserIsLastMatch(users: seq<User>, name: string)
    ensures FindUser(users, name).None? <==> forall k :: 0 <= k < |users| ==> users[k].username != name
    ensures FindUser(users, name).Some? ==>
      exists k :: 0 <= k < |users| && users[k] == FindUser(users, name).value && users[k].username == name
        && forall j :: k < j < |users| ==> users[j].username != name
  {
    if users != [] {
      var init := users[..|users| - 1];
      FindUserIsLastMatch(init, name);
      if users[|users| - 1].username != name && FindUser(init, name).Some? {
        var k :| 0 <= k < |init| && init[k] == FindUser(init, name).value && init[k].username == name
          && forall j :: k < j < |init| ==> init[j].username != name;
        assert users[k] == init[k];
      }
    }
  }

  /** Lines 70-72: scan the account's users for the name. No match is an
      explicit failure here. */
  method LookupUser(allUsers: seq<User>, name: string) returns (updateUser: Option<User>)
    ensures updateUser == FindUser(allUsers, name)
    ensures updateUser.None? <==> forall k :: 0 <= k < |allUsers| ==> allUsers[k].username != name
    ensures updateUser.Some? ==> updateUser.value in allUsers && updateUser.value.username == name
  {
    updateUser := None;
    for i := 0 to |allUsers|
      invariant updateUser == FindUser(allUsers[..i], name)
    {
      assert allUsers[..i + 1][..i] == allUsers[..i];
      if name == allUsers[i].username {
        updateUser := Some(allUsers[i]);
      }
    }
    assert allUsers[..|allUsers|] == allUsers;
    FindUserIsLastMatch(allUsers, name);
  }

  // ---------------------------------------------------------------------------
  // Seeding

  /** Add mode keeps the user's overrides, in order, and their subnet ids as
      seen; replace mode starts from nothing. */
  function Seed(user: User, mode: Mode): Working {
    if mode == Add then
      Working(
        seq(|user.overrides|, i requires 0 <= i < |user.overrides| =>
          Existing(user.overrides[i].id, user.overrides[i].subnetId, user.overrides[i].userId)),
        seq(|user.overrides|, i requires 0 <= i < |user.overrides| => user.overrides[i].subnetId))
    else Working([], [])
  }

  /** Both modes delete every stored override of the user, in order. */
  function Deletions(user: User): (r: seq<Action>)
    ensures |r| == |user.overrides|
    ensures forall i :: 0 <= i < |r| ==> r[i] == DeleteOverride(user.overrides[i].id)
  {
    seq(|user.overrides|, i requires 0 <= i < |user.overrides| => DeleteOverride(user.overrides[i].id))
  }

  /** Lines 74-84: seed the working list by mode and delete the stored overrides. */
  method SeedWorkingSet(user: User, mode: Mode) returns (working: Working, deletes: seq<Action>)
    ensures working == Seed(user, mode)
    ensures deletes == Deletions(user)
  {
    var newOverrides: seq<Override> := [];
    var userSubnetIds: seq<int> := [];
    deletes := [];
    if mode == Add {
      newOverrides := Seed(user, Add).overrides;
      for k := 0 to |user.overrides|
        invariant userSubnetIds == Seed(user, Add).seen[..k]
        invariant deletes == Deletions(user)[..k]
      {
        var o := user.overrides[k];
        userSubnetIds := userSubnetIds + [o.subnetId];
        deletes := deletes + [DeleteOverride(o.id)];
      }
    } else {
      for k := 0 to |user.overrides|
        invariant deletes == Deletions(user)[..k]
      {
        deletes := deletes + [DeleteOverride(user.overrides[k].id)];
      }
    }
    working := Working(newOverrides, userSubnetIds);
  }

  // ---------------------------------------------------------------------------
  // Resolving requests

  /** Lines 92 and 109: `re.match('10\.', s) or re.match('100\.', s)`. */
  predicate IsPrivateRange(text: string) {
    StartsWith(text, "10.") || StartsWith(text, "100.")
  }

  /** A label matches a subnet whose display label contains it; an IP address
      one that lists it among its member addresses. */
  predicate Matches(sn: Subnet, req: Request) {
    match req
    case SubnetLabel(text) => Contains(sn.displayLabel, text)
    case IpAddress(text) => text in sn.ipAddresses
  }

  predicate AnyMatch(subnets: seq<Subnet>, req: Request) {
    exists i :: 0 <= i < |subnets| && Matches(subnets[i], req)
  }

  /** One subnet considered for a request: appended, with its id marked seen,
      when it matches and its id is not yet seen. */
  function Consider(w: Working, sn: Subnet, req: Request, userId: int): Working {
    if Matches(sn, req) && sn.id !in w.seen then
      Working(w.overrides + [Requested(sn.id, userId)], w.seen + [sn.id])
    else w
  }

  /** Every subnet considered, in order. */
  function Absorb(w: Working, subnets: seq<Subnet>, req: Request, userId: int): Working {
    if subnets == [] then w
    else Consider(Absorb(w, subnets[..|subnets| - 1], req, userId), subnets[|subnets| - 1], req, userId)
  }

  /** Lines 94-101: match a subnet label against every subnet's display label. */
  method ResolveSubnetLabel(working: Working, allSubnets: seq<Subnet>, s: string, userId: int)
    returns (next: Working, doesExist: bool)
    ensures next == Absorb(working, allSubnets, SubnetLabel(s), userId)
    ensures doesExist == AnyMatch(allSubnets, SubnetLabel(s))
  {
    next, doesExist := working, false;
    for k := 0 to |allSubnets|
      invariant next == Absorb(working, allSubnets[..k], SubnetLabel(s), userId)
      invariant doesExist == AnyMatch(allSubnets[..k], SubnetLabel(s))
    {
      var sn := allSubnets[k];
      assert allSubnets[..k + 1][..k] == allSubnets[..k];
      assert allSubnets[..k + 1][k] == sn;
      if Contains(sn.displayLabel, s) {
        doesExist := true;
        if sn.id !in next.seen {
          next := Working(next.overrides + [Requested(sn.id, userId)], next.seen + [sn.id]);
        }
      }
    }
    assert allSubnets[..|allSubnets|] == allSubnets;
  }

  /** Lines 110-118: match an IP address against every member address of every
      subnet. A subnet listing the address twice is still appended once. */
  method ResolveIp(working: Working, allSubnets: seq<Subnet>, i: string, userId: int)
    returns (next: Working, doesExist: bool)
    ensures next == Absorb(working, allSubnets, IpAddress(i), userId)
    ensures doesExist == AnyMatch(allSubnets, IpAddress(i))
  {
    next, doesExist := working, false;
    for k := 0 to |allSubnets|
      invariant next == Absorb(working, allSubnets[..k], IpAddress(i), userId)
      invariant doesExist == AnyMatch(allSubnets[..k], IpAddress(i))
    {
      var sn := allSubnets[k];
      assert allSubnets[..k + 1][..k] == allSubnets[..k];
      assert allSubnets[..k + 1][k] == sn;
      ghost var before, existedBefore := next, doesExist;
      for j := 0 to |sn.ipAddresses|
        invariant i in sn.ipAddresses[..j] ==> next == Consider(before, sn, IpAddress(i), userId) && doesExist
        invariant i !in sn.ipAddresses[..j] ==> next == before && doesExist == existedBefore
        invariant i in sn.ipAddresses[..j] ==> sn.id in next.seen
      {
        assert sn.ipAddresses[..j + 1] == sn.ipAddresses[..j] + [sn.ipAddresses[j]];
        if i == sn.ipAddresses[j] {
          doesExist := true;
          if sn.id !in next.seen {
            next := Working(next.overrides + [Requested(sn.id, userId)], next.seen + [sn.id]);
          }
        }
      }
      assert sn.ipAddresses[..|sn.ipAddresses|] == sn.ipAddresses;
    }
    assert allSubnets[..|allSubnets|] == allSubnets;
  }

  /** The values of a list option; `if args.subnet:` skips an absent list
      and an empty one alike. */
  function Values(list: Option<seq<string>>): seq<string> {
    if list.Some? then list.value else []
  }

  function LabelRequests(labels: seq<string>): (r: seq<Request>)
    ensures |r| == |labels|
  {
    seq(|labels|, k requires 0 <= k < |labels| => SubnetLabel(labels[k]))
  }

  function IpRequests(ips: seq<string>): (r: seq<Request>)
    ensures |r| == |ips|
  {
    seq(|ips|, k requires 0 <= k < |ips| => IpAddress(ips[k]))
  }

  /** The requests in the order they are handled: every `--subnet` value,
      then every `--ip` value. */
  function Requests(args: Args): seq<Request> {
    LabelRequests(Values(args.subnet)) + IpRequests(Values(args.ip))
  }

  /** The working list after the requests, the requests that matched nothing
      (warned about), and the first input outside the private ranges, at which
      resolution stops. */
  datatype Resolution = Resolution(working: Working, warnings: seq<Request>, rejected: Option<string>)

  function Resolve(w: Working, subnets: seq<Subnet>, reqs: seq<Request>, userId: int): Resolution
    decreases |reqs|
  {
    if reqs == [] then Resolution(w, [], None)
    else if !IsPrivateRange(reqs[0].text) then Resolution(w, [], Some(reqs[0].text))
    else
      var rest := Resolve(Absorb(w, subnets, reqs[0], userId), subnets, reqs[1..], userId);
      var warning := if AnyMatch(subnets, reqs[0]) then [] else [reqs[0]];
      rest.(warnings := warning + rest.warnings)
  }

  /** `r` with the warnings `earlier` printed before its own. */
  function AfterWarnings(earlier: seq<Request>, r: Resolution): Resolution {
    r.(warnings := earlier + r.warnings)
  }

  lemma {:induction false} ResolveConcat(w: Working, subnets: seq<Subnet>, a: seq<Request>, b: seq<Request>, userId: int)
    ensures var first := Resolve(w, subnets, a, userId);
      Resolve(w, subnets, a + b, userId)
        == if first.rejected.Some? then first
           else AfterWarnings(first.warnings, Resolve(first.working, subnets, b, userId))
    decreases |a|
  {
    if a == [] {
      assert a + b == b;
    } else {
      assert (a + b)[0] == a[0] && (a + b)[1..] == a[1..] + b;
      if IsPrivateRange(a[0].text) {
        ResolveConcat(Absorb(w, subnets, a[0], userId), subnets, a[1..], b, userId);
        var warning := if AnyMatch(subnets, a[0]) then [] else [a[0]];
        var rest := Resolve(Absorb(w, subnets, a[0], userId), subnets, a[1..], userId);
        if rest.rejected.None? {
          assert warning + rest.warnings + Resolve(rest.working, subnets, b, userId).warnings
            == warning + (rest.warnings + Resolve(rest.working, subnets, b, userId).warnings);
        }
      }
    }
  }

  /** One request more: resolution goes on past an accepted value, and stops
      at a rejected one. */
  lemma ResolveOneMore(w: Working, subnets: seq<Subnet>, done: seq<Request>, req: Request, userId: int)
    requires Resolve(w, subnets, done, userId).rejected.None?
    ensures var before := Resolve(w, subnets, done, userId);
      Resolve(w, subnets, done + [req], userId)
        == if !IsPrivateRange(req.text) then Resolution(before.working, before.warnings, Some(req.text))
           else Resolution(Absorb(before.working, subnets, req, userId),
                           before.warnings + (if AnyMatch(subnets, req) then [] else [req]), None)
  {
    var before := Resolve(w, subnets, done, userId);
    ResolveConcat(w, subnets, done, [req], userId);
    assert [req][1..] == [];
  }

  /** Lines 89-104: resolve every subnet label, stopping at the first one
      outside the private ranges. */
  method ResolveSubnetLabels(working: Working, allSubnets: seq<Subnet>, labels: seq<string>, userId: int)
    returns (next: Working, warnings: seq<Request>, rejected: Option<string>)
    ensures Resolution(next, warnings, rejected) == Resolve(working, allSubnets, LabelRequests(labels), userId)
  {
    next, warnings := working, [];
    for k := 0 to |labels|
      invariant Resolve(working, allSubnets, LabelRequests(labels[..k]), userId) == Resolution(next, warnings, None)
    {
      var s := labels[k];
      assert LabelRequests(labels[..k + 1]) == LabelRequests(labels[..k]) + [SubnetLabel(s)];
      ResolveOneMore(working, allSubnets, LabelRequests(labels[..k]), SubnetLabel(s), userId);
      if IsPrivateRange(s) {
        var doesExist;
        next, doesExist := ResolveSubnetLabel(next, allSubnets, s, userId);
        if !doesExist {
          warnings := warnings + [SubnetLabel(s)];
        }
      } else {
        ResolveConcat(working, allSubnets, LabelRequests(labels[..k + 1]), LabelRequests(labels[k + 1..]), userId);
        assert LabelRequests(labels[..k + 1]) + LabelRequests(labels[k + 1..]) == LabelRequests(labels);
        return next, warnings, Some(s);
      }
    }
    assert labels[..|labels|] == labels;
    rejected := None;
  }

  /** Lines 106-121: resolve every IP address, stopping at the first one
      outside the private ranges. */
  method ResolveIps(working: Working, allSubnets: seq<Subnet>, ips: seq<string>, userId: int)
    returns (next: Working, warnings: seq<Request>, rejected: Option<string>)
    ensures Resolution(next, warnings, rejected) == Resolve(working, allSubnets, IpRequests(ips), userId)
  {
    next, warnings := working, [];
    for k := 0 to |ips|
      invariant Resolve(working, allSubnets, IpRequests(ips[..k]), userId) == Resolution(next, warnings, None)
    {
      var i := ips[k];
      assert IpRequests(ips[..k + 1]) == IpRequests(ips[..k]) + [IpAddress(i)];
      ResolveOneMore(working, allSubnets, IpRequests(ips[..k]), IpAddress(i), userId);
      if IsPrivateRange(i) {
        var doesExist;
        next, doesExist := ResolveIp(next, allSubnets, i, userId);
        if !doesExist {
          warnings := warnings + [IpAddress(i)];
        }
      } else {
        ResolveConcat(working, allSubnets, IpRequests(ips[..k + 1]), IpRequests(ips[k + 1..]), userId);
        assert IpRequests(ips[..k + 1]) + IpRequests(ips[k + 1..]) == IpRequests(ips);
        return next, warnings, Some(i);
      }
    }
    assert ips[..|ips|] == ips;
    rejected := None;
  }

  function WarnActions(warnings: seq<Request>): (r: seq<Action>)
    ensures |r| == |warnings|
  {
    seq(|warnings|, k requires 0 <= k < |warnings| => Warn(warnings[k]))
  }

  /** Lines 123-129: each VPN flag is switched on only when it is off. */
  function FlagActions(user: User): (r: seq<Action>)
    ensures EnableSslVpn(user.id) in r <==> !user.sslVpnAllowedFlag
    ensures EnableManualConfig(user.id) in r <==> !user.vpnManualConfig
    ensures forall a :: a in r ==> a == EnableSslVpn(user.id) || a == EnableManualConfig(user.id)
    ensures NoDuplicates(r)
  {
    (if !user.sslVpnAllowedFlag then [EnableSslVpn(user.id)] else [])
      + (if !user.vpnManualConfig then [EnableManualConfig(user.id)] else [])
  }

  /** Lines 74-132 for a found user and a checked mode: the actions issued
      and the error, if any, that ends the run. */
  function Reconcile(args: Args, user: User, mode: Mode, subnets: seq<Subnet>): Outcome {
    var res := Resolve(Seed(user, mode), subnets, Requests(args), user.id);
    var issued := Deletions(user) + WarnActions(res.warnings);
    match res.rejected
    case Some(text) => Outcome(issued, Some(NotPrivate(text)))
    case None =>
      Outcome(issued + FlagActions(user) + [CreateOverrides(res.working.overrides), UpdateVpnUser(user.id)], None)
  }

  /** The whole run, as the actions it issues and the error that ends it. */
  function Run(args: Args, users: seq<User>, subnets: seq<Subnet>): Outcome {
    match CheckArgs(args)
    case Err(e) => Outcome([], Some(e))
    case Ok(mode) =>
      var name := args.updateUser.value;
      match FindUser(users, name)
      case None => Outcome([], Some(UserNotFound(name)))
      case Some(user) => Reconcile(args, user, mode, subnets)
  }

  /** `Reconcile` with the subnet labels and the IP addresses resolved in two
      passes, as the source's two loops do. */
  lemma ReconcileInTwoPasses(args: Args, user: User, mode: Mode, subnets: seq<Subnet>)
    ensures var first := Resolve(Seed(user, mode), subnets, LabelRequests(Values(args.subnet)), user.id);
      var second := Resolve(first.working, subnets, IpRequests(Values(args.ip)), user.id);
      var issued := Deletions(user) + WarnActions(first.warnings);
      Reconcile(args, user, mode, subnets)
        == if first.rejected.Some? then Outcome(issued, Some(NotPrivate(first.rejected.value)))
           else if second.rejected.Some? then Outcome(issued + WarnActions(second.warnings), Some(NotPrivate(second.rejected.value)))
           else Outcome(issued + WarnActions(second.warnings) + FlagActions(user)
                          + [CreateOverrides(second.working.overrides), UpdateVpnUser(user.id)], None)
  {
    var labels, ips := LabelRequests(Values(args.subnet)), IpRequests(Values(args.ip));
    var first := Resolve(Seed(user, mode), subnets, labels, user.id);
    var second := Resolve(first.working, subnets, ips, user.id);
    var whole := Resolve(Seed(user, mode), subnets, Requests(args), user.id);
    assert Requests(args) == labels + ips;
    ResolveConcat(Seed(user, mode), subnets, labels, ips, user.id);
    if first.rejected.Some? {
      assert whole == first;
    } else {
      assert whole == Resolution(second.working, first.warnings + second.warnings, second.rejected);
      assert WarnActions(first.warnings + second.warnings) == WarnActions(first.warnings) + WarnActions(second.warnings);
    }
  }

  /** Lines 74-132: seed, resolve, switch the flags on and submit. */
  method ReconcileUser(args: Args, user: User, mode: Mode, allSubnets: seq<Subnet>)
    returns (actions: seq<Action>, error: Option<VpnError>)
    ensures Outcome(actions, error) == Reconcile(args, user, mode, allSubnets)
  {
    ReconcileInTwoPasses(args, user, mode, allSubnets);
    var working, deletes := SeedWorkingSet(user, mode);
    actions := deletes;
    var afterLabels, labelWarnings, rejected := ResolveSubnetLabels(working, allSubnets, Values(args.subnet), user.id);
    actions := actions + WarnActions(labelWarnings);
    if rejected.Some? {
      return actions, Some(NotPrivate(rejected.value));
    }
    var next, ipWarnings;
    next, ipWarnings, rejected := ResolveIps(afterLabels, allSubnets, Values(args.ip), user.id);
    actions := actions + WarnActions(ipWarnings);
    if rejected.Some? {
      return actions, Some(NotPrivate(rejected.value));
    }
    actions := actions + FlagActions(user) + [CreateOverrides(next.overrides), UpdateVpnUser(user.id)];
    error := None;
  }

  /** Lines 52-132: the whole script after the client is set up. */
  method UpdateVpnAccess(args: Args, allUsers: seq<User>, allSubnets: seq<Subnet>)
    returns (actions: seq<Action>, error: Option<VpnError>)
    ensures Outcome(actions, error) == Run(args, allUsers, allSubnets)
  {
    var checked := CheckArgs(args);
    if checked.Err? {
      return [], Some(checked.error);
    }
    var name := args.updateUser.value;
    var updateUser := LookupUser(allUsers, name);
    if updateUser.None? {
      return [], Some(UserNotFound(name));
    }
    actions, error := ReconcileUser(args, updateUser.value, checked.value, allSubnets);
  }
}
