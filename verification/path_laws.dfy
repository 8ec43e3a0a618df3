/** What a path names, said by walks over the directory graph instead of by the resolver: a walk
    goes from a place to the next by one component, or by one symbolic link.
 */
module PathLaws {

  import opened PathWalk

  /** A place in a walk, with what is left of the path: at an inode, or before a device. */
  datatype Place = At(dev: string, ino: nat, left: string) | On(dev: string, left: string)

  predicate Separators(s: string) {
    forall i | 0 <= i < |s| :: s[i] == '/'
  }

  /** `rest` is nothing, or begins with a separator. */
  predicate Ended(rest: string) {
    rest == "" || rest[0] == '/'
  }

  /** The first component of `s` is `name`, and `rest` is behind it. */
  ghost predicate FirstName(s: string, name: string, rest: string) {
    && (exists seps: string :: Separators(seps) && s == seps + name + rest)
    && '/' !in name && Ended(rest) && (name == "" ==> rest == "")
  }

  predicate ProperName(name: string) {
    |name| <= MAXNAMLEN + 1 && forall i | 0 <= i < |name| :: Ascii(name[i])
  }

  predicate Readable(env: Env, dev: string, ino: nat) {
    dev in env && ino in env[dev]
  }

  /** Directory `ino` has the entry `name` for inode `child`. */
  predicate Entry(env: Env, dev: string, ino: nat, name: string, child: nat) {
    && Readable(env, dev, ino) && env[dev][ino].Dir?
    && name in env[dev][ino].entries && env[dev][ino].entries[name] == child
  }

  /** The next component leads from `a` to inode `child`, which can be read. */
  ghost predicate Found(env: Env, a: Place, name: string, rest: string, child: nat) {
    && a.At? && a.left != "" && FirstName(a.left, name, rest) && ProperName(name)
    && Entry(env, a.dev, a.ino, name, child) && Readable(env, a.dev, child)
  }

  /** By a component that is not a link, or into a device. */
  ghost predicate Hop(env: Env, a: Place, b: Place) {
    if a.On? then
      a.dev in env && a.left != "" && b == At(a.dev, ROOTINO, a.left)
    else
      exists name, rest, child ::
        Found(env, a, name, rest, child) && !env[a.dev][child].Link? && b == At(a.dev, child, rest)
  }

  /** Where a link's target, with what follows the link, starts: in the link's directory, at the
      root, or on a device. */
  ghost predicate Starts(a: Place, path: string, b: Place)
    requires a.At?
  {
    if path == "" || path[0] != '/' then b == At(a.dev, a.ino, path)
    else if !Prefix(DEV, path) then b == At(a.dev, ROOTINO, path)
    else b.On? && path == DEV + b.dev + b.left && '/' !in b.dev && Ended(b.left)
  }

  /** By a link, whose target takes its place in the path. */
  ghost predicate Jump(env: Env, a: Place, b: Place) {
    exists name, rest, child ::
      && Found(env, a, name, rest, child) && env[a.dev][child].Link?
      && |env[a.dev][child].target| + |rest| + 1 < MAXPATHLEN - 1
      && Starts(a, env[a.dev][child].target + rest, b)
  }

  /** The walk is over. */
  ghost predicate Ends(env: Env, a: Place, r: Opened) {
    if a.On? then
      if a.dev !in env then r == Error(NoDevice) else a.left == "" && r == Device(a.dev)
    else if !Readable(env, a.dev, a.ino) then r == Error(ReadError)
    else if a.left == "" then r == File(a.dev, a.ino)
    else if !env[a.dev][a.ino].Dir? then r == Error(NotDirectory)
    else exists name, rest :: FirstName(a.left, name, rest) && Fails(env, a, name, rest, r)
  }

  /** The next component is at fault. */
  ghost predicate Fails(env: Env, a: Place, name: string, rest: string, r: Opened)
    requires a.At? && Readable(env, a.dev, a.ino) && env[a.dev][a.ino].Dir?
  {
    var entries := env[a.dev][a.ino].entries;
    if !ProperName(name) then
      r == Error(if exists i | 0 <= i < |name| && i <= MAXNAMLEN :: !Ascii(name[i]) then InvalidParameter
                 else NameTooLong)
    else if name !in entries then r == Error(NoEntry)
    else if !Readable(env, a.dev, entries[name]) then r == Error(ReadError)
    else
      && env[a.dev][entries[name]].Link?
      && |env[a.dev][entries[name]].target| + |rest| + 1 >= MAXPATHLEN - 1 && r == Error(NameTooLong)
  }

  /** A walk, with the number of links followed at each of its places. */
  datatype Stage = Stage(place: Place, links: nat)

  ghost predicate Next(env: Env, a: Stage, b: Stage) {
    if b.links == a.links then Hop(env, a.place, b.place)
    else b.links == a.links + 1 <= MAXSYMLINKS && Jump(env, a.place, b.place)
  }

  ghost predicate Walk(env: Env, w: seq<Stage>) {
    |w| > 0 && w[0].links <= MAXSYMLINKS && forall i | 0 < i < |w| :: Next(env, w[i - 1], w[i])
  }

  /** The walk ends with `r`, or would have to follow one link too many. */
  ghost predicate Over(env: Env, a: Stage, r: Opened) {
    || Ends(env, a.place, r)
    || (a.links == MAXSYMLINKS && r == Error(SymlinkLoop) && exists b :: Jump(env, a.place, b))
  }

  // The resolver follows a walk

  function Value(env: Env, a: Place, nlinks: nat): Opened
    requires nlinks <= MAXSYMLINKS
  {
    match a
    case At(dev, ino, left) => Resolve(env, dev, ino, left, nlinks)
    case On(dev, left) => OnDevice(env, dev + left, nlinks)
  }

  predicate Proper(a: Place) {
    a.On? ==> '/' !in a.dev && Ended(a.left)
  }

  lemma {:induction false} SkipsSeparators(seps: string, s: string)
    requires Separators(seps) && (s == "" || s[0] != '/')
    ensures SkipSlashes(seps + s) == s
  {
    if seps == "" {
      assert seps + s == s;
    } else {
      assert (seps + s)[1..] == seps[1..] + s;
      SkipsSeparators(seps[1..], s);
    }
  }

  lemma {:induction false} NameEnds(name: string, rest: string)
    requires '/' !in name && Ended(rest)
    ensures NameLen(name + rest) == |name|
  {
    if name == "" {
      assert name + rest == rest;
    } else {
      assert (name + rest)[1..] == name[1..] + rest;
      NameEnds(name[1..], rest);
    }
  }

  /** The resolver takes the same component off a string as the walk does. */
  lemma TakesName(s: string, name: string, rest: string)
    requires FirstName(s, name, rest)
    ensures var t := SkipSlashes(s); t[..NameLen(t)] == name && t[NameLen(t)..] == rest
  {
    var seps: string :| Separators(seps) && s == seps + name + rest;
    assert s == seps + (name + rest);
    SkipsSeparators(seps, name + rest);
    NameEnds(name, rest);
  }

  lemma OnParts(env: Env, dev: string, left: string, nlinks: nat)
    requires nlinks <= MAXSYMLINKS && '/' !in dev && Ended(left)
    ensures (dev + left)[..NameLen(dev + left)] == dev && (dev + left)[NameLen(dev + left)..] == left
  {
    NameEnds(dev, left);
  }

  lemma ResolveName(env: Env, dev: string, ino: nat, s: string, nlinks: nat, name: string, rest: string)
    requires nlinks <= MAXSYMLINKS && Readable(env, dev, ino) && env[dev][ino].Dir?
    requires s != "" && FirstName(s, name, rest)
    ensures |rest| < |s|
    ensures Resolve(env, dev, ino, s, nlinks) ==
            if NameFault(name).Bad? then Error(NameFault(name).code)
            else if name !in env[dev][ino].entries then Error(NoEntry)
            else Follow(env, dev, ino, env[dev][ino].entries[name], rest, nlinks, |s|)
  {
    TakesName(s, name, rest);
  }

  lemma FoundFollows(env: Env, a: Place, name: string, rest: string, child: nat, nlinks: nat)
    requires nlinks <= MAXSYMLINKS && Found(env, a, name, rest, child)
    ensures |rest| < |a.left|
    ensures Value(env, a, nlinks) == Follow(env, a.dev, a.ino, child, rest, nlinks, |a.left|)
  {
    NamesThatPass(name);
    ResolveName(env, a.dev, a.ino, a.left, nlinks, name, rest);
  }

  lemma FollowPlain(env: Env, dev: string, parent: nat, ino: nat, rest: string, nlinks: nat, n: nat)
    requires nlinks <= MAXSYMLINKS && |rest| < n && Readable(env, dev, ino) && !env[dev][ino].Link?
    ensures Follow(env, dev, parent, ino, rest, nlinks, n) == Resolve(env, dev, ino, rest, nlinks)
  {
  }

  lemma HopKeeps(env: Env, a: Place, b: Place, nlinks: nat)
    requires nlinks <= MAXSYMLINKS && Hop(env, a, b) && Proper(a)
    ensures Value(env, b, nlinks) == Value(env, a, nlinks) && Proper(b)
  {
    if a.On? {
      OnParts(env, a.dev, a.left, nlinks);
    } else {
      var name, rest, child :|
        Found(env, a, name, rest, child) && !env[a.dev][child].Link? && b == At(a.dev, child, rest);
      FoundFollows(env, a, name, rest, child, nlinks);
      FollowPlain(env, a.dev, a.ino, child, rest, nlinks, |a.left|);
    }
  }

  lemma StartsAgain(env: Env, a: Place, path: string, b: Place, nlinks: nat)
    requires nlinks <= MAXSYMLINKS && a.At? && Starts(a, path, b)
    ensures Value(env, b, nlinks) == Again(env, a.dev, a.ino, path, nlinks) && Proper(b)
  {
    if Absolute(path) && Prefix(DEV, path) {
      assert path[|DEV|..] == b.dev + b.left;
    }
  }

  lemma FollowLink(env: Env, dev: string, parent: nat, ino: nat, rest: string, nlinks: nat, n: nat)
    requires nlinks <= MAXSYMLINKS && |rest| < n && Readable(env, dev, ino) && env[dev][ino].Link?
    ensures Follow(env, dev, parent, ino, rest, nlinks, n) ==
            if |env[dev][ino].target| + |rest| + 1 >= MAXPATHLEN - 1 then Error(NameTooLong)
            else if nlinks == MAXSYMLINKS then Error(SymlinkLoop)
            else Again(env, dev, parent, env[dev][ino].target + rest, nlinks + 1)
  {
  }

  lemma JumpKeeps(env: Env, a: Place, b: Place, nlinks: nat)
    requires nlinks <= MAXSYMLINKS && Jump(env, a, b)
    ensures if nlinks == MAXSYMLINKS then Value(env, a, nlinks) == Error(SymlinkLoop)
            else Value(env, a, nlinks) == Value(env, b, nlinks + 1)
    ensures Proper(b)
  {
    var name, rest, child :|
      && Found(env, a, name, rest, child) && env[a.dev][child].Link?
      && |env[a.dev][child].target| + |rest| + 1 < MAXPATHLEN - 1
      && Starts(a, env[a.dev][child].target + rest, b);
    FoundFollows(env, a, name, rest, child, nlinks);
    FollowLink(env, a.dev, a.ino, child, rest, nlinks, |a.left|);
    StartsAgain(env, a, env[a.dev][child].target + rest, b, if nlinks < MAXSYMLINKS then nlinks + 1 else nlinks);
  }

  lemma FailsRight(env: Env, a: Place, name: string, rest: string, r: Opened, nlinks: nat)
    requires nlinks <= MAXSYMLINKS && a.At? && Readable(env, a.dev, a.ino) && env[a.dev][a.ino].Dir?
    requires a.left != "" && FirstName(a.left, name, rest) && Fails(env, a, name, rest, r)
    ensures Resolve(env, a.dev, a.ino, a.left, nlinks) == r
  {
    NamesThatPass(name);
    ResolveName(env, a.dev, a.ino, a.left, nlinks, name, rest);
    var entries := env[a.dev][a.ino].entries;
    if name in entries && Readable(env, a.dev, entries[name]) && env[a.dev][entries[name]].Link? {
      FollowLink(env, a.dev, a.ino, entries[name], rest, nlinks, |a.left|);
    }
  }

  lemma EndsRight(env: Env, a: Place, r: Opened, nlinks: nat)
    requires nlinks <= MAXSYMLINKS && Ends(env, a, r) && Proper(a)
    ensures Value(env, a, nlinks) == r
  {
    if a.On? {
      OnParts(env, a.dev, a.left, nlinks);
    } else if Readable(env, a.dev, a.ino) && a.left != "" && env[a.dev][a.ino].Dir? {
      var name, rest :| FirstName(a.left, name, rest) && Fails(env, a, name, rest, r);
      FailsRight(env, a, name, rest, r, nlinks);
    }
  }

  function Worth(env: Env): Stage -> Opened {
    (a: Stage) => if a.links <= MAXSYMLINKS then Value(env, a.place, a.links) else Error(SymlinkLoop)
  }

  ghost predicate Fit(a: Stage) {
    Proper(a.place) && a.links <= MAXSYMLINKS
  }

  lemma NextFit(env: Env, a: Stage, b: Stage)
    requires Next(env, a, b) && Fit(a)
    ensures Fit(b)
  {
  }

  lemma NextKeeps(env: Env, a: Stage, b: Stage)
    requires Next(env, a, b) && Fit(a)
    ensures Worth(env)(b) == Worth(env)(a)
  {
    if b.links == a.links {
      HopWorth(env, a, b);
    } else {
      JumpWorth(env, a, b);
    }
  }

  lemma HopWorth(env: Env, a: Stage, b: Stage)
    requires Hop(env, a.place, b.place) && Fit(a) && b.links == a.links
    ensures Worth(env)(b) == Worth(env)(a)
  {
    HopKeeps(env, a.place, b.place, a.links);
  }

  lemma JumpWorth(env: Env, a: Stage, b: Stage)
    requires Jump(env, a.place, b.place) && b.links == a.links + 1 <= MAXSYMLINKS
    ensures Worth(env)(b) == Worth(env)(a)
  {
    JumpKeeps(env, a.place, b.place, a.links);
  }

  /** What every step keeps, a walk keeps. */
  lemma {:induction false} WalkKeeps<T>(env: Env, w: seq<Stage>, n: nat, worth: Stage -> T)
    requires Walk(env, w) && Fit(w[0]) && n < |w|
    requires forall a, b | Next(env, a, b) && Fit(a) :: worth(b) == worth(a)
    ensures Fit(w[n]) && worth(w[n]) == worth(w[0])
  {
    if n > 0 {
      WalkKeeps(env, w, n - 1, worth);
      assert Next(env, w[n - 1], w[n]);
      NextFit(env, w[n - 1], w[n]);
    }
  }

  lemma WalkWorth(env: Env, w: seq<Stage>)
    requires Walk(env, w) && Fit(w[0])
    ensures Fit(w[|w| - 1]) && Worth(env)(w[|w| - 1]) == Worth(env)(w[0])
  {
    var worth := Worth(env);
    forall a, b | Next(env, a, b) && Fit(a) ensures worth(b) == worth(a) {
      NextKeeps(env, a, b);
    }
    WalkKeeps(env, w, |w| - 1, worth);
  }

  /** Where a walk begins that opens a path. */
  ghost predicate Opening(path: string, a: Place) {
    a.On? && path == DEV + a.dev + a.left && Proper(a)
  }

  ghost predicate Leads(env: Env, path: string, w: seq<Stage>, r: Opened) {
    Walk(env, w) && w[0].links == 0 && Opening(path, w[0].place) && Over(env, w[|w| - 1], r)
  }

  lemma OpeningWorth(env: Env, path: string, a: Stage)
    requires Opening(path, a.place) && a.links == 0
    ensures Open(env, path) == Worth(env)(a)
  {
    assert path[|DEV|..] == a.place.dev + a.place.left;
  }

  lemma OverWorth(env: Env, a: Stage, r: Opened)
    requires Over(env, a, r) && Fit(a)
    ensures Worth(env)(a) == r
  {
    if Ends(env, a.place, r) {
      EndsRight(env, a.place, r, a.links);
    } else {
      var b :| Jump(env, a.place, b);
      JumpKeeps(env, a.place, b, a.links);
    }
  }

  /** Every walk from the path's device ends with what the path opens. */
  lemma WalkOpens(env: Env, path: string, w: seq<Stage>, r: Opened)
    requires Leads(env, path, w, r)
    ensures Open(env, path) == r
  {
    OpeningWorth(env, path, w[0]);
    WalkWorth(env, w);
    OverWorth(env, w[|w| - 1], r);
  }

  // Every path has a walk

  lemma Regroup(a: string, b: string, c: string)
    ensures a + b + c == a + (b + c)
  {
  }

  lemma {:induction false} LeadingSeparators(s: string) returns (seps: string)
    ensures Separators(seps) && s == seps + SkipSlashes(s)
  {
    if |s| > 0 && s[0] == '/' {
      var more := LeadingSeparators(s[1..]);
      seps := [s[0]] + more;
      Regroup([s[0]], more, SkipSlashes(s[1..]));
    } else {
      seps := "";
    }
  }

  /** Every string has a first component, if only an empty one. */
  lemma HasFirstName(s: string) returns (name: string, rest: string)
    ensures FirstName(s, name, rest)
  {
    var seps := LeadingSeparators(s);
    name, rest := CutName(SkipSlashes(s));
    Regroup(seps, name, rest);
  }

  lemma CutName(t: string) returns (name: string, rest: string)
    requires t == "" || t[0] != '/'
    ensures t == name + rest && '/' !in name && Ended(rest) && (name == "" ==> rest == "")
  {
    name, rest := t[..NameLen(t)], t[NameLen(t)..];
  }

  lemma SplitDevice(s: string) returns (a: Place)
    ensures a.On? && s == a.dev + a.left && Proper(a)
  {
    a := On(s[..NameLen(s)], s[NameLen(s)..]);
  }

  lemma HasStart(a: Place, path: string) returns (b: Place)
    requires a.At?
    ensures Starts(a, path, b) && (b.At? ==> b.left == path)
  {
    if path == "" || path[0] != '/' {
      b := At(a.dev, a.ino, path);
    } else if !Prefix(DEV, path) {
      b := At(a.dev, ROOTINO, path);
    } else {
      b := SplitDevice(path[|DEV|..]);
      assert path == DEV + path[|DEV|..];
      assert path == DEV + b.dev + b.left;
    }
  }

  /** How far a place is from the end of the walk, between links. */
  function Far(a: Place): nat {
    2 * |a.left| + if a.On? then 1 else 0
  }

  /** At every place the walk goes on or is over. */
  lemma Progress(env: Env, a: Place) returns (r: Opened, b: Place)
    requires Proper(a)
    ensures Ends(env, a, r) || (Hop(env, a, b) && Far(b) < Far(a)) || Jump(env, a, b)
  {
    r, b := Error(NoDevice), a;
    if a.On? {
      if a.dev in env && a.left == "" {
        r := Device(a.dev);
      } else if a.dev in env {
        b := At(a.dev, ROOTINO, a.left);
      }
    } else if !Readable(env, a.dev, a.ino) {
      r := Error(ReadError);
    } else if a.left == "" {
      r := File(a.dev, a.ino);
    } else if !env[a.dev][a.ino].Dir? {
      r := Error(NotDirectory);
    } else {
      r, b := NextName(env, a);
    }
  }

  lemma NextName(env: Env, a: Place) returns (r: Opened, b: Place)
    requires a.At? && Readable(env, a.dev, a.ino) && env[a.dev][a.ino].Dir? && a.left != ""
    ensures Ends(env, a, r) || (Hop(env, a, b) && Far(b) < Far(a)) || Jump(env, a, b)
  {
    var name, rest := HasFirstName(a.left);
    var entries := env[a.dev][a.ino].entries;
    r, b := Error(NoEntry), a;
    if !ProperName(name) {
      r := Error(if exists i | 0 <= i < |name| && i <= MAXNAMLEN :: !Ascii(name[i]) then InvalidParameter
                 else NameTooLong);
      assert Fails(env, a, name, rest, r);
    } else if name !in entries {
      assert Fails(env, a, name, rest, r);
    } else if !Readable(env, a.dev, entries[name]) {
      r := Error(ReadError);
      assert Fails(env, a, name, rest, r);
    } else {
      r, b := ThroughEntry(env, a, name, rest, entries[name]);
    }
  }

  lemma ThroughEntry(env: Env, a: Place, name: string, rest: string, child: nat) returns (r: Opened, b: Place)
    requires Found(env, a, name, rest, child)
    ensures Ends(env, a, r) || (Hop(env, a, b) && Far(b) < Far(a)) || Jump(env, a, b)
  {
    r, b := Error(NameTooLong), At(a.dev, child, rest);
    if env[a.dev][child].Link? {
      if |env[a.dev][child].target| + |rest| + 1 >= MAXPATHLEN - 1 {
        assert Fails(env, a, name, rest, r);
      } else {
        b := HasStart(a, env[a.dev][child].target + rest);
      }
    }
  }

  lemma {:induction false} HasWalk(env: Env, a: Stage) returns (w: seq<Stage>, r: Opened)
    requires Proper(a.place) && a.links <= MAXSYMLINKS
    ensures Walk(env, w) && w[0] == a && Over(env, w[|w| - 1], r)
    decreases MAXSYMLINKS - a.links, Far(a.place)
  {
    var b;
    r, b := Progress(env, a.place);
    if Ends(env, a.place, r) {
      w := [a];
    } else if Hop(env, a.place, b) && Far(b) < Far(a.place) {
      NextFit(env, a, Stage(b, a.links));
      w, r := HasWalk(env, Stage(b, a.links));
      w := Longer(env, a, w);
    } else if a.links == MAXSYMLINKS {
      w, r := [a], Error(SymlinkLoop);
    } else {
      NextFit(env, a, Stage(b, a.links + 1));
      w, r := HasWalk(env, Stage(b, a.links + 1));
      w := Longer(env, a, w);
    }
  }

  lemma Longer(env: Env, a: Stage, v: seq<Stage>) returns (w: seq<Stage>)
    requires Walk(env, v) && Next(env, a, v[0]) && a.links <= MAXSYMLINKS
    ensures Walk(env, w) && w[0] == a && w[|w| - 1] == v[|v| - 1]
  {
    w := [a] + v;
    forall i | 0 < i < |w| ensures Next(env, w[i - 1], w[i]) {
      if i > 1 { assert Next(env, v[i - 2], v[i - 1]); }
    }
  }

  /** A path opens `r` if and only if it does not begin with a device, and `r` says so, or a walk
      from its device ends with `r`. */
  lemma OpensExactly(env: Env, path: string, r: Opened)
    ensures Open(env, path) == r <==>
            if !Prefix(DEV, path) then r == Error(NoEntry)
            else exists w :: Leads(env, path, w, r)
  {
    if Prefix(DEV, path) {
      var a := SplitDevice(path[|DEV|..]);
      assert path == DEV + path[|DEV|..] && path == DEV + a.dev + a.left;
      var w, r0 := HasWalk(env, Stage(a, 0));
      WalkOpens(env, path, w, r0);
      assert Leads(env, path, w, r0);
      forall v | Leads(env, path, v, r) ensures Open(env, path) == r {
        WalkOpens(env, path, v, r);
      }
    }
  }

  // Paths without links

  /** The names, each behind a separator. */
  function Joined(names: seq<string>): string {
    if names == [] then "" else "/" + names[0] + Joined(names[1..])
  }

  predicate PlainName(name: string) {
    name != "" && '/' !in name && ProperName(name)
  }

  /** Each inode is the entry of its name in the directory before it, and none is a link. */
  predicate Chain(env: Env, dev: string, names: seq<string>, inos: seq<nat>) {
    |inos| == |names| + 1 && forall k | 0 <= k < |names| :: Linked(env, dev, names[k], inos, k)
  }

  predicate Linked(env: Env, dev: string, name: string, inos: seq<nat>, k: nat) {
    && k + 1 < |inos| && PlainName(name) && Entry(env, dev, inos[k], name, inos[k + 1])
    && Readable(env, dev, inos[k + 1]) && !env[dev][inos[k + 1]].Link?
  }

  lemma JoinedEnded(names: seq<string>, rest: string)
    requires Ended(rest)
    ensures Ended(Joined(names) + rest)
  {
    if names == [] {
      assert Joined(names) + rest == rest;
    }
  }

  lemma ChainHop(env: Env, dev: string, names: seq<string>, inos: seq<nat>, rest: string, k: nat)
    requires Chain(env, dev, names, inos) && Ended(rest) && k < |names|
    ensures Hop(env, At(dev, inos[k], Joined(names[k..]) + rest), At(dev, inos[k + 1], Joined(names[k + 1..]) + rest))
  {
    var left := Joined(names[k + 1..]) + rest;
    var a := At(dev, inos[k], Joined(names[k..]) + rest);
    JoinedEnded(names[k + 1..], rest);
    assert names[k..][1..] == names[k + 1..];
    Regroup("/" + names[k], Joined(names[k + 1..]), rest);
    assert a.left == "/" + names[k] + left;
    assert FirstName(a.left, names[k], left) by { assert Separators("/"); }
    assert Linked(env, dev, names[k], inos, k);
    assert Found(env, a, names[k], left, inos[k + 1]);
  }

  /** A walk from `a` ends with `r`. */
  ghost predicate Comes(env: Env, a: Stage, r: Opened) {
    exists w :: Walk(env, w) && w[0] == a && Over(env, w[|w| - 1], r)
  }

  lemma ComesEarlier(env: Env, a: Stage, b: Stage, r: Opened)
    requires Next(env, a, b) && a.links <= MAXSYMLINKS && Comes(env, b, r)
    ensures Comes(env, a, r)
  {
    var v: seq<Stage> :| Walk(env, v) && v[0] == b && Over(env, v[|v| - 1], r);
    var w := Longer(env, a, v);
  }

  /** The names lead to the last inode, whatever follows. */
  lemma {:induction false} ChainLeads(env: Env, dev: string, names: seq<string>, inos: seq<nat>, rest: string,
                                      r: Opened, k: nat)
    requires Chain(env, dev, names, inos) && Ended(rest) && k <= |names|
    requires Comes(env, Stage(At(dev, inos[|names|], rest), 0), r)
    ensures Comes(env, Stage(At(dev, inos[k], Joined(names[k..]) + rest), 0), r)
    decreases |names| - k
  {
    if k == |names| {
      assert Joined(names[k..]) + rest == rest;
    } else {
      ChainLeads(env, dev, names, inos, rest, r, k + 1);
      ChainHop(env, dev, names, inos, rest, k);
      ComesEarlier(env, Stage(At(dev, inos[k], Joined(names[k..]) + rest), 0),
                   Stage(At(dev, inos[k + 1], Joined(names[k + 1..]) + rest), 0), r);
    }
  }

  lemma ComesOpens(env: Env, path: string, a: Place, r: Opened)
    requires Opening(path, a) && Comes(env, Stage(a, 0), r)
    ensures Open(env, path) == r
  {
    var w: seq<Stage> :| Walk(env, w) && w[0] == Stage(a, 0) && Over(env, w[|w| - 1], r);
    WalkOpens(env, path, w, r);
  }

  lemma RootOpens(env: Env, dev: string, left: string, r: Opened)
    requires '/' !in dev && dev in env && Ended(left) && left != ""
    requires Comes(env, Stage(At(dev, ROOTINO, left), 0), r)
    ensures Open(env, DEV + dev + left) == r
  {
    ComesEarlier(env, Stage(On(dev, left), 0), Stage(At(dev, ROOTINO, left), 0), r);
    ComesOpens(env, DEV + dev + left, On(dev, left), r);
  }

  lemma OpenFrom(env: Env, dev: string, names: seq<string>, inos: seq<nat>, rest: string, r: Opened)
    requires '/' !in dev && dev in env && Chain(env, dev, names, inos) && inos[0] == ROOTINO
    requires Ended(rest) && Joined(names) + rest != "" && Comes(env, Stage(At(dev, inos[|names|], rest), 0), r)
    ensures Open(env, DEV + dev + Joined(names) + rest) == r
  {
    JoinedEnded(names, rest);
    Regroup(DEV + dev, Joined(names), rest);
    ChainLeads(env, dev, names, inos, rest, r, 0);
    assert names[0..] == names;
    RootOpens(env, dev, Joined(names) + rest, r);
  }

  lemma Already(env: Env, a: Stage, r: Opened)
    requires Over(env, a, r) && a.links <= MAXSYMLINKS
    ensures Comes(env, a, r)
  {
    assert Walk(env, [a]);
  }

  /** An ordinary path of directories opens the inode that its names lead to from the root. */
  lemma ChainOpens(env: Env, dev: string, names: seq<string>, inos: seq<nat>)
    requires '/' !in dev && dev in env && names != [] && Chain(env, dev, names, inos) && inos[0] == ROOTINO
    ensures Open(env, DEV + dev + Joined(names)) == File(dev, inos[|names|])
  {
    assert Linked(env, dev, names[|names| - 1], inos, |names| - 1);
    Already(env, Stage(At(dev, inos[|names|], ""), 0), File(dev, inos[|names|]));
    OpenFrom(env, dev, names, inos, "", File(dev, inos[|names|]));
    assert DEV + dev + Joined(names) + "" == DEV + dev + Joined(names);
  }

  // Paths with links

  lemma {:induction false} LinkCount(env: Env, w: seq<Stage>, n: nat)
    requires Walk(env, w) && n < |w|
    ensures w[n].links >= w[0].links
  {
    if n > 0 {
      LinkCount(env, w, n - 1);
      assert Next(env, w[n - 1], w[n]);
    }
  }

  /** A walk can be made with one link less behind it. */
  lemma LessLinks(env: Env, a: Place, links: nat, r: Opened)
    requires Comes(env, Stage(a, links + 1), r) && r != Error(SymlinkLoop)
    ensures Comes(env, Stage(a, links), r)
  {
    var w: seq<Stage> :| Walk(env, w) && w[0] == Stage(a, links + 1) && Over(env, w[|w| - 1], r);
    forall i | 0 <= i < |w| ensures w[i].links >= links + 1 {
      LinkCount(env, w, i);
    }
    var v := seq(|w|, i requires 0 <= i < |w| => Stage(w[i].place, w[i].links - 1));
    forall i | 0 < i < |v| ensures Next(env, v[i - 1], v[i]) {
      assert Next(env, w[i - 1], w[i]);
    }
    assert Walk(env, v) && Over(env, v[|v| - 1], r);
  }

  /** A separator in front makes no difference in a directory. */
  lemma LeadingSlash(env: Env, dev: string, ino: nat, t: string, r: Opened)
    requires Readable(env, dev, ino) && env[dev][ino].Dir? && t != ""
    requires Comes(env, Stage(At(dev, ino, t), 0), r)
    ensures Comes(env, Stage(At(dev, ino, "/" + t), 0), r)
  {
    var w: seq<Stage> :| Walk(env, w) && w[0] == Stage(At(dev, ino, t), 0) && Over(env, w[|w| - 1], r);
    var a := Stage(At(dev, ino, "/" + t), 0);
    if |w| == 1 {
      SlashEnds(env, dev, ino, t, r);
      Already(env, a, r);
    } else {
      assert Next(env, w[0], w[1]);
      SlashNext(env, dev, ino, t, w[1]);
      var v := w[1..];
      forall i | 0 < i < |v| ensures Next(env, v[i - 1], v[i]) {
        assert Next(env, w[i], w[i + 1]);
      }
      assert Comes(env, w[1], r) by { assert Walk(env, v) && v[|v| - 1] == w[|w| - 1]; }
      ComesEarlier(env, a, w[1], r);
    }
  }

  lemma SlashName(t: string, name: string, rest: string)
    requires FirstName(t, name, rest)
    ensures FirstName("/" + t, name, rest)
  {
    var seps: string :| Separators(seps) && t == seps + name + rest;
    assert Separators("/" + seps) && "/" + t == "/" + seps + name + rest;
  }

  lemma SlashEnds(env: Env, dev: string, ino: nat, t: string, r: Opened)
    requires Readable(env, dev, ino) && env[dev][ino].Dir? && t != "" && Over(env, Stage(At(dev, ino, t), 0), r)
    ensures Over(env, Stage(At(dev, ino, "/" + t), 0), r)
  {
    var a := At(dev, ino, t);
    var name, rest :| FirstName(t, name, rest) && Fails(env, a, name, rest, r);
    SlashName(t, name, rest);
    assert Fails(env, At(dev, ino, "/" + t), name, rest, r);
  }

  lemma SlashNext(env: Env, dev: string, ino: nat, t: string, b: Stage)
    requires Next(env, Stage(At(dev, ino, t), 0), b)
    ensures Next(env, Stage(At(dev, ino, "/" + t), 0), b)
  {
    var a, a' := At(dev, ino, t), At(dev, ino, "/" + t);
    forall name, rest, child | Found(env, a, name, rest, child) ensures Found(env, a', name, rest, child) {
      SlashName(t, name, rest);
    }
  }

  /** The path that has the text `t`, which begins with a link's target, in place of what lay behind
      the link's directory: relative to that directory, from the root, or on another device. */
  function Instead(dev: string, names: seq<string>, t: string): string
    requires t != ""
  {
    if t[0] != '/' then DEV + dev + Joined(names) + ("/" + t)
    else if !Prefix(DEV, t) then DEV + dev + t
    else t
  }

  lemma InsteadOpens(env: Env, dev: string, names: seq<string>, inos: seq<nat>, t: string, b: Place, r: Opened)
    requires '/' !in dev && dev in env && Chain(env, dev, names, inos) && inos[0] == ROOTINO && t != ""
    requires Readable(env, dev, inos[|names|]) && env[dev][inos[|names|]].Dir?
    requires Starts(At(dev, inos[|names|], ""), t, b) && Comes(env, Stage(b, 0), r)
    ensures Open(env, Instead(dev, names, t)) == r
  {
    if t[0] != '/' {
      LeadingSlash(env, dev, inos[|names|], t, r);
      OpenFrom(env, dev, names, inos, "/" + t, r);
    } else if !Prefix(DEV, t) {
      RootOpens(env, dev, t, r);
    } else {
      ComesOpens(env, t, b, r);
    }
  }

  /** A link opens what the path opens that has its target in its place, unless that takes more
      links than the limit. */
  lemma LinkOpens(env: Env, dev: string, names: seq<string>, inos: seq<nat>, name: string, child: nat, rest: string)
    requires '/' !in dev && dev in env && Chain(env, dev, names, inos) && inos[0] == ROOTINO
    requires PlainName(name) && Ended(rest) && Entry(env, dev, inos[|names|], name, child)
    requires Readable(env, dev, child) && env[dev][child].Link?
    requires var t := env[dev][child].target + rest; t != "" && |t| + 1 < MAXPATHLEN - 1
    ensures var r := Open(env, DEV + dev + Joined(names) + ("/" + name + rest));
            r == Error(SymlinkLoop) || r == Open(env, Instead(dev, names, env[dev][child].target + rest))
  {
    var t, left := env[dev][child].target + rest, "/" + name + rest;
    var a := At(dev, inos[|names|], left);
    assert FirstName(left, name, rest) by { assert Separators("/"); }
    assert Found(env, a, name, rest, child);
    var b := HasStart(a, t);
    assert Jump(env, a, b) && Proper(b);
    var w, r := HasWalk(env, Stage(b, 1));
    assert Comes(env, Stage(b, 1), r);
    ComesEarlier(env, Stage(a, 0), Stage(b, 1), r);
    OpenFrom(env, dev, names, inos, left, r);
    if r != Error(SymlinkLoop) {
      LessLinks(env, b, 0, r);
      InsteadOpens(env, dev, names, inos, t, b, r);
    }
  }
}
