/** The path walk of the boot file reader: a name buffer, rewritten in place at every symbolic
    link, against a definition of what a path names. */
module PathWalk {

  const NUL: char := '\0'
  const MAXPATHLEN: nat := 1024
  const MAXNAMLEN: nat := 255
  const MAXSYMLINKS: nat := 8
  const ROOTINO: nat := 2

  datatype Node = Dir(entries: map<string, nat>) | Link(target: string) | Other

  datatype Code = NoEntry | NotDirectory | NameTooLong | InvalidParameter | SymlinkLoop | NoDevice | ReadError

  datatype Opened = Device(dev: string) | File(dev: string, ino: nat) | Error(code: Code)

  /** The devices that can be opened, each with the inodes that can be read. */
  type Env = map<string, map<nat, Node>>

  predicate ValidEnv(env: Env) {
    forall d, i | d in env && i in env[d] && env[d][i].Link? :: NUL !in env[d][i].target
  }

  // What a path names

  function SkipSlashes(s: string): (t: string)
    ensures |t| <= |s| && (|t| > 0 ==> t[0] != '/') && (|s| > 0 && s[0] == '/' ==> |t| < |s|)
    ensures t == s[|s| - |t|..]
  {
    if |s| > 0 && s[0] == '/' then SkipSlashes(s[1..]) else s
  }

  /** The length of the first component. */
  function NameLen(s: string): (n: nat)
    ensures n <= |s| && (forall i | 0 <= i < n :: s[i] != '/') && (n < |s| ==> s[n] == '/')
  {
    if |s| == 0 || s[0] == '/' then 0 else 1 + NameLen(s[1..])
  }

  datatype NameCheck = Fine | Bad(code: Code)

  predicate Ascii(c: char) {
    c as int < 0x80
  }

  /** The fault of a component: a character that is not ASCII among the first 256, or else more
      than 256 characters. */
  function NameFault(name: string): NameCheck {
    if exists i | 0 <= i < |name| && i <= MAXNAMLEN :: !Ascii(name[i]) then Bad(InvalidParameter)
    else if |name| > MAXNAMLEN + 1 then Bad(NameTooLong)
    else Fine
  }

  predicate Prefix(p: string, s: string) {
    |p| <= |s| && s[..|p|] == p
  }

  predicate Absolute(s: string) {
    |s| > 0 && s[0] == '/'
  }

  const DEV: string := "/dev/"

  /** The node named by `s`, starting at inode `ino` after `nlinks` symbolic links. */
  function Resolve(env: Env, dev: string, ino: nat, s: string, nlinks: nat): Opened
    requires nlinks <= MAXSYMLINKS
    decreases MAXSYMLINKS - nlinks, |s|, 0
  {
    if dev !in env || ino !in env[dev] then Error(ReadError)
    else if |s| == 0 then File(dev, ino)
    else if !env[dev][ino].Dir? then Error(NotDirectory)
    else
      var t := SkipSlashes(s);
      var name, rest := t[..NameLen(t)], t[NameLen(t)..];
      if NameFault(name).Bad? then Error(NameFault(name).code)
      else if name !in env[dev][ino].entries then Error(NoEntry)
      else Follow(env, dev, ino, env[dev][ino].entries[name], rest, nlinks, |s|)
  }

  /** Goes on at the inode found, or at the target of the symbolic link found. */
  function Follow(env: Env, dev: string, parent: nat, ino: nat, rest: string, nlinks: nat, n: nat): Opened
    requires nlinks <= MAXSYMLINKS && |rest| < n
    decreases MAXSYMLINKS - nlinks, n - 1, 1
  {
    if dev !in env || ino !in env[dev] then Error(ReadError)
    else if !env[dev][ino].Link? then Resolve(env, dev, ino, rest, nlinks)
    else
      var target := env[dev][ino].target;
      if |target| + |rest| + 1 >= MAXPATHLEN - 1 then Error(NameTooLong)
      else if nlinks + 1 > MAXSYMLINKS then Error(SymlinkLoop)
      else Again(env, dev, parent, target + rest, nlinks + 1)
  }

  /** A path from a link: relative to the link's directory, from the root, or on a device. */
  function Again(env: Env, dev: string, parent: nat, s: string, nlinks: nat): Opened
    requires nlinks <= MAXSYMLINKS
    decreases MAXSYMLINKS - nlinks, |s| + 1, 3
  {
    if !Absolute(s) then Resolve(env, dev, parent, s, nlinks)
    else if !Prefix(DEV, s) then Resolve(env, dev, ROOTINO, s, nlinks)
    else OnDevice(env, s[|DEV|..], nlinks)
  }

  /** `s` is the name of a device, and a path on it if a separator follows. */
  function OnDevice(env: Env, s: string, nlinks: nat): Opened
    requires nlinks <= MAXSYMLINKS
    decreases MAXSYMLINKS - nlinks, |s| + 1, 2
  {
    var name, rest := s[..NameLen(s)], s[NameLen(s)..];
    if name !in env then Error(NoDevice)
    else if |rest| == 0 then Device(name)
    else Resolve(env, name, ROOTINO, rest, nlinks)
  }

  function Open(env: Env, path: string): Opened {
    if !Prefix(DEV, path) then Error(NoEntry) else OnDevice(env, path[|DEV|..], 0)
  }

  // What the walk can end at

  predicate EndsWell(env: Env, r: Opened) {
    match r
    case Device(d) => d in env
    case File(d, i) => d in env && i in env[d] && !env[d][i].Link?
    case Error(_) => true
  }

  /** A file that is opened is there and is not a symbolic link, even as the last component. */
  lemma {:induction false} ResolveEndsWell(env: Env, dev: string, ino: nat, s: string, nlinks: nat)
    requires nlinks <= MAXSYMLINKS
    requires |s| == 0 && dev in env && ino in env[dev] ==> !env[dev][ino].Link?
    ensures EndsWell(env, Resolve(env, dev, ino, s, nlinks))
    decreases MAXSYMLINKS - nlinks, |s|, 0
  {
    if dev in env && ino in env[dev] && |s| > 0 && env[dev][ino].Dir? {
      var t := SkipSlashes(s);
      var name, rest := t[..NameLen(t)], t[NameLen(t)..];
      if NameFault(name).Fine? && name in env[dev][ino].entries {
        FollowEndsWell(env, dev, ino, env[dev][ino].entries[name], rest, nlinks, |s|);
      }
    }
  }

  lemma {:induction false} FollowEndsWell(env: Env, dev: string, parent: nat, ino: nat, rest: string,
                                          nlinks: nat, n: nat)
    requires nlinks <= MAXSYMLINKS && |rest| < n
    requires dev in env && parent in env[dev] && env[dev][parent].Dir?
    ensures EndsWell(env, Follow(env, dev, parent, ino, rest, nlinks, n))
    decreases MAXSYMLINKS - nlinks, n - 1, 1
  {
    if ino in env[dev] {
      if !env[dev][ino].Link? {
        ResolveEndsWell(env, dev, ino, rest, nlinks);
      } else if nlinks < MAXSYMLINKS {
        AgainEndsWell(env, dev, parent, env[dev][ino].target + rest, nlinks + 1);
      }
    }
  }

  lemma {:induction false} AgainEndsWell(env: Env, dev: string, parent: nat, s: string, nlinks: nat)
    requires nlinks <= MAXSYMLINKS
    requires dev in env && parent in env[dev] && env[dev][parent].Dir?
    ensures EndsWell(env, Again(env, dev, parent, s, nlinks))
    decreases MAXSYMLINKS - nlinks, |s| + 1, 3
  {
    if !Absolute(s) {
      ResolveEndsWell(env, dev, parent, s, nlinks);
    } else if !Prefix(DEV, s) {
      ResolveEndsWell(env, dev, ROOTINO, s, nlinks);
    } else {
      OnDeviceEndsWell(env, s[|DEV|..], nlinks);
    }
  }

  lemma {:induction false} OnDeviceEndsWell(env: Env, s: string, nlinks: nat)
    requires nlinks <= MAXSYMLINKS
    ensures EndsWell(env, OnDevice(env, s, nlinks))
    decreases MAXSYMLINKS - nlinks, |s| + 1, 2
  {
    if NameLen(s) < |s| {
      ResolveEndsWell(env, s[..NameLen(s)], ROOTINO, s[NameLen(s)..], nlinks);
    }
  }

  lemma OpenEndsWell(env: Env, path: string)
    ensures EndsWell(env, Open(env, path))
  {
    if Prefix(DEV, path) {
      OnDeviceEndsWell(env, path[|DEV|..], 0);
    }
  }

  // What one might not expect

  /** A component passes if and only if it is ASCII and has at most one character more than the
      limit that the header gives for names. */
  lemma NamesThatPass(name: string)
    ensures NameFault(name).Fine? <==> |name| <= MAXNAMLEN + 1 && forall i | 0 <= i < |name| :: Ascii(name[i])
  {
  }

  lemma LongNamePasses()
    ensures exists name: string :: |name| > MAXNAMLEN && NameFault(name).Fine?
  {
    var name := seq(MAXNAMLEN + 1, _ => 'a');
    assert |name| > MAXNAMLEN && NameFault(name).Fine?;
  }

  /** No device and no entry of a directory has the empty name. */
  predicate NoEmptyNames(env: Env) {
    "" !in env && forall d, i | d in env && i in env[d] && env[d][i].Dir? :: "" !in env[d][i].entries
  }

  predicate EndsInSlash(s: string) {
    |s| > 0 && s[|s| - 1] == '/'
  }

  lemma {:induction false} SkipEndsInSlash(s: string)
    requires EndsInSlash(s)
    ensures |SkipSlashes(s)| > 0 ==> EndsInSlash(SkipSlashes(s))
  {
    if s[0] == '/' && |s| > 1 {
      SkipEndsInSlash(s[1..]);
    }
  }

  /** Behind a component of a string that ends in a separator there is such a string again. */
  lemma RestEndsInSlash(t: string)
    requires EndsInSlash(t)
    ensures EndsInSlash(t[NameLen(t)..])
  {
    var n := NameLen(t);
    assert n <= |t| - 1;
    assert t[n..][|t| - n - 1] == t[|t| - 1];
  }

  /** A path that ends in a separator names nothing. */
  lemma {:induction false} ResolveSlash(env: Env, dev: string, ino: nat, s: string, nlinks: nat)
    requires NoEmptyNames(env) && nlinks <= MAXSYMLINKS && EndsInSlash(s)
    ensures Resolve(env, dev, ino, s, nlinks).Error?
    decreases MAXSYMLINKS - nlinks, |s|, 0
  {
    if dev in env && ino in env[dev] && env[dev][ino].Dir? {
      var t := SkipSlashes(s);
      var name, rest := t[..NameLen(t)], t[NameLen(t)..];
      SkipEndsInSlash(s);
      if name in env[dev][ino].entries {
        assert name != "";
        RestEndsInSlash(t);
        FollowSlash(env, dev, ino, env[dev][ino].entries[name], rest, nlinks, |s|);
      }
    }
  }

  lemma {:induction false} FollowSlash(env: Env, dev: string, parent: nat, ino: nat, rest: string, nlinks: nat, n: nat)
    requires NoEmptyNames(env) && nlinks <= MAXSYMLINKS && |rest| < n && EndsInSlash(rest)
    ensures Follow(env, dev, parent, ino, rest, nlinks, n).Error?
    decreases MAXSYMLINKS - nlinks, n - 1, 1
  {
    if dev in env && ino in env[dev] {
      if !env[dev][ino].Link? {
        ResolveSlash(env, dev, ino, rest, nlinks);
      } else if nlinks < MAXSYMLINKS {
        AgainSlash(env, dev, parent, env[dev][ino].target + rest, nlinks + 1);
      }
    }
  }

  lemma {:induction false} AgainSlash(env: Env, dev: string, parent: nat, s: string, nlinks: nat)
    requires NoEmptyNames(env) && nlinks <= MAXSYMLINKS && EndsInSlash(s)
    ensures Again(env, dev, parent, s, nlinks).Error?
    decreases MAXSYMLINKS - nlinks, |s| + 1, 3
  {
    if !Absolute(s) {
      ResolveSlash(env, dev, parent, s, nlinks);
    } else if !Prefix(DEV, s) {
      ResolveSlash(env, dev, ROOTINO, s, nlinks);
    } else {
      OnDeviceSlash(env, s[|DEV|..], nlinks);
    }
  }

  lemma {:induction false} OnDeviceSlash(env: Env, s: string, nlinks: nat)
    requires NoEmptyNames(env) && nlinks <= MAXSYMLINKS && (|s| == 0 || EndsInSlash(s))
    ensures OnDevice(env, s, nlinks).Error?
    decreases MAXSYMLINKS - nlinks, |s| + 1, 2
  {
    if NameLen(s) < |s| {
      ResolveSlash(env, s[..NameLen(s)], ROOTINO, s[NameLen(s)..], nlinks);
    }
  }

  lemma TrailingSeparator(env: Env, path: string)
    requires NoEmptyNames(env) && EndsInSlash(path)
    ensures Open(env, path).Error?
  {
    if Prefix(DEV, path) {
      OnDeviceSlash(env, path[|DEV|..], 0);
    }
  }

  /** At a directory, a separator alone looks the empty name up. */
  lemma OnlySeparator(env: Env, dev: string, ino: nat, nlinks: nat)
    requires nlinks <= MAXSYMLINKS && dev in env && ino in env[dev] && env[dev][ino].Dir?
    requires "" !in env[dev][ino].entries
    ensures Resolve(env, dev, ino, "/", nlinks) == Error(NoEntry)
  {
    assert SkipSlashes("/") == "";
  }

  /** What a link's target and the rest of the path should name: a target that does not start with
      a separator is relative to the link's directory. */
  function FromTarget(env: Env, dev: string, parent: nat, target: string, rest: string, nlinks: nat): Opened
    requires nlinks <= MAXSYMLINKS
  {
    if Absolute(target) then Again(env, dev, parent, target + rest, nlinks)
    else Resolve(env, dev, parent, target + rest, nlinks)
  }

  /** The walk takes it so on every file system if and only if the target is not empty or nothing
      follows the link; an empty target in front of more stands for the root. */
  lemma EmptyTarget(target: string, rest: string, nlinks: nat)
    requires nlinks <= MAXSYMLINKS && (rest == "" || Absolute(rest))
    ensures (forall env: Env, dev: string, parent: nat ::
               Again(env, dev, parent, target + rest, nlinks) == FromTarget(env, dev, parent, target, rest, nlinks))
            <==> target != "" || rest == ""
  {
    if target == "" && rest != "" {
      RootInstead(rest, nlinks);
      assert target + rest == rest;
    } else {
      assert target != "" ==> (target + rest)[0] == target[0];
      assert target == "" ==> target + rest == "";
    }
  }

  /** A device with one inode, neither its root nor a directory. */
  function OneFile(): Env {
    map["d" := map[ROOTINO + 1 := Other]]
  }

  lemma RootInstead(rest: string, nlinks: nat)
    requires nlinks <= MAXSYMLINKS && Absolute(rest)
    ensures var env := OneFile();
            Again(env, "d", ROOTINO + 1, rest, nlinks) != FromTarget(env, "d", ROOTINO + 1, "", rest, nlinks)
  {
    var env := OneFile();
    assert "" + rest == rest;
    assert Resolve(env, "d", ROOTINO + 1, rest, nlinks) == Error(NotDirectory);
    assert Resolve(env, "d", ROOTINO, rest, nlinks) == Error(ReadError);
    if Prefix(DEV, rest) {
      NotOnDevice(rest[|DEV|..], nlinks);
    }
  }

  lemma NotOnDevice(s: string, nlinks: nat)
    requires nlinks <= MAXSYMLINKS
    ensures OnDevice(OneFile(), s, nlinks) != Error(NotDirectory)
  {
    var name, rest := s[..NameLen(s)], s[NameLen(s)..];
    if name in OneFile() && |rest| > 0 {
      assert name == "d";
      assert Resolve(OneFile(), name, ROOTINO, rest, nlinks) == Error(ReadError);
    }
  }

  // The buffer

  /** The buffer holds the string `t`, with its terminator, from index `i` on. */
  predicate HoldsAt(a: seq<char>, i: nat, t: string) {
    i + |t| < |a| && a[i..i + |t|] == t && a[i + |t|] == NUL && NUL !in t
  }

  /** ovbcopy: a correct move whether the ranges overlap or not. */
  method OvbCopy(a: array<char>, from: nat, to: nat, n: nat)
    requires from + n <= a.Length && to + n <= a.Length
    modifies a
    ensures a[to..to + n] == old(a[from..from + n])
    ensures a[..to] == old(a[..to]) && a[to + n..] == old(a[to + n..])
  {
    if from + n <= to || to + n <= from || to == from || from > to {
      CopyUp(a, from, to, n);
    } else {
      var k := n;
      while k > 0
        invariant 0 <= k <= n
        invariant forall i | 0 <= i < a.Length && !(to + k <= i < to + n) :: a[i] == old(a[i])
        invariant forall i | to + k <= i < to + n :: a[i] == old(a[from + (i - to)])
      {
        k := k - 1;
        a[to + k] := a[from + k];
      }
    }
  }

  /** bcopy, from the low addresses up. */
  method CopyUp(a: array<char>, from: nat, to: nat, n: nat)
    requires from + n <= a.Length && to + n <= a.Length && (to <= from || from + n <= to)
    modifies a
    ensures a[to..to + n] == old(a[from..from + n])
    ensures a[..to] == old(a[..to]) && a[to + n..] == old(a[to + n..])
  {
    for k := 0 to n
      invariant forall i | 0 <= i < a.Length && !(to <= i < to + k) :: a[i] == old(a[i])
      invariant forall i | to <= i < to + k :: a[i] == old(a[from + (i - to)])
    {
      a[to + k] := a[from + k];
    }
  }

  method CopyIn(a: array<char>, t: string)
    requires |t| <= a.Length
    modifies a
    ensures a[..|t|] == t && a[|t|..] == old(a[|t|..])
  {
    for k := 0 to |t|
      invariant forall i | k <= i < a.Length :: a[i] == old(a[i])
      invariant forall i | 0 <= i < k :: a[i] == t[i]
    {
      a[k] := t[k];
    }
  }

  /** Puts the target of a link in front of the unread rest of the path. */
  method Splice(a: array<char>, cp: nat, target: string, ghost rest: string)
    requires HoldsAt(a[..], cp, rest) && NUL !in target && |target| + |rest| + 1 <= a.Length
    modifies a
    ensures HoldsAt(a[..], 0, target + rest)
  {
    var n := StrLen(a, cp, rest);
    var len := n + 1;
    OvbCopy(a, cp, |target|, len);
    assert a[|target|..|target| + len] == old(a[cp..cp + len]) == rest + [NUL];
    ghost var moved := a[|target|..];
    assert moved[..len] == a[|target|..|target| + len];
    CopyIn(a, target);
    assert a[|target|..|target| + len] == moved[..len];
    assert a[..|target| + len] == target + rest + [NUL];
  }

  method StrLen(a: array<char>, i: nat, ghost t: string) returns (n: nat)
    requires HoldsAt(a[..], i, t)
    ensures n == |t|
  {
    n := 0;
    while a[i + n] != NUL
      invariant n <= |t|
      decreases |t| - n
    {
      CharAt(a[..], i, t, n);
      n := n + 1;
    }
    CharAt(a[..], i, t, n);
  }

  lemma CharAt(a: seq<char>, i: nat, t: string, n: nat)
    requires HoldsAt(a, i, t) && n <= |t|
    ensures a[i + n] == NUL <==> n == |t|
    ensures n < |t| ==> a[i + n] == t[n]
    ensures HoldsAt(a, i + n, t[n..])
  {
    assert n < |t| ==> a[i..i + |t|][n] == t[n];
  }

  lemma SlashAt(a: seq<char>, cp: nat, t: string)
    requires HoldsAt(a, cp, t)
    ensures cp < |a| && (a[cp] == '/' <==> |t| > 0 && t[0] == '/')
    ensures |t| > 0 && t[0] == '/' ==> HoldsAt(a, cp + 1, t[1..]) && SkipSlashes(t) == SkipSlashes(t[1..])
  {
    CharAt(a, cp, t, 0);
    if |t| > 0 {
      CharAt(a, cp, t, 1);
    }
  }

  /** Moves past separators. */
  method PassSlashes(a: array<char>, start: nat, ghost s: string) returns (cp: nat)
    requires HoldsAt(a[..], start, s)
    ensures HoldsAt(a[..], cp, SkipSlashes(s))
  {
    cp := start;
    ghost var t := s;
    SlashAt(a[..], cp, t);
    while a[cp] == '/'
      invariant cp < a.Length && HoldsAt(a[..], cp, t) && SkipSlashes(t) == SkipSlashes(s)
      invariant a[cp] == '/' <==> |t| > 0 && t[0] == '/'
      decreases |t|
    {
      SlashAt(a[..], cp, t);
      t := t[1..];
      cp := cp + 1;
      SlashAt(a[..], cp, t);
    }
  }

  /** The component ends at the first separator or at the end of the string. */
  lemma InName(a: seq<char>, start: nat, s: string, n: nat)
    requires HoldsAt(a, start, s) && n <= NameLen(s)
    ensures start + n < |a| && (a[start + n] != NUL && a[start + n] != '/' <==> n < NameLen(s))
    ensures n < NameLen(s) ==> a[start + n] == s[n]
  {
    CharAt(a, start, s, n);
  }

  /** Moves past a component. */
  method PassName(a: array<char>, start: nat, ghost s: string) returns (cp: nat)
    requires HoldsAt(a[..], start, s)
    ensures cp == start + NameLen(s) && HoldsAt(a[..], cp, s[NameLen(s)..])
  {
    cp := start;
    InName(a[..], start, s, 0);
    while a[cp] != NUL && a[cp] != '/'
      invariant start <= cp <= start + NameLen(s) && cp < a.Length
      invariant a[cp] != NUL && a[cp] != '/' <==> cp - start < NameLen(s)
      decreases start + NameLen(s) - cp
    {
      cp := cp + 1;
      InName(a[..], start, s, cp - start);
    }
    CharAt(a[..], start, s, NameLen(s));
  }

  /** Moves past a component, and stops at the first fault in it. */
  method CheckedName(a: array<char>, start: nat, ghost s: string) returns (cp: nat, fault: NameCheck)
    requires HoldsAt(a[..], start, s)
    ensures fault == NameFault(s[..NameLen(s)])
    ensures fault.Fine? ==> cp == start + NameLen(s) && HoldsAt(a[..], cp, s[NameLen(s)..])
  {
    cp := start;
    ghost var name := s[..NameLen(s)];
    InName(a[..], start, s, 0);
    while a[cp] != NUL && a[cp] != '/'
      invariant start <= cp <= start + |name| && cp < a.Length
      invariant a[cp] != NUL && a[cp] != '/' <==> cp - start < |name|
      invariant cp - start < |name| ==> a[cp] == name[cp - start]
      invariant cp - start <= MAXNAMLEN + 1 && forall i | 0 <= i < cp - start :: Ascii(name[i])
      decreases start + |name| - cp
    {
      if cp - start > MAXNAMLEN { return cp, Bad(NameTooLong); }
      if !Ascii(a[cp]) { return cp, Bad(InvalidParameter); }
      cp := cp + 1;
      InName(a[..], start, s, cp - start);
    }
    CharAt(a[..], start, s, NameLen(s));
    fault := Fine;
  }

  lemma NameIs(a: seq<char>, i: nat, s: string)
    requires HoldsAt(a, i, s)
    ensures a[i..i + NameLen(s)] == s[..NameLen(s)]
  {
    assert a[i..i + |s|][..NameLen(s)] == a[i..i + NameLen(s)];
  }

  // The walk

  /** Done with a result, or to go on at `cp` in the buffer from an inode that can be read. */
  datatype Progress = Stop(r: Opened) | Go(cp: nat, dev: string, ino: nat, nlinks: nat)

  /** Where the walk stands comes to `r`, the string at `cp` being `s`. */
  predicate Means(env: Env, a: seq<char>, p: Progress, s: string, r: Opened) {
    match p
    case Stop(q) => q == r
    case Go(cp, dev, ino, nlinks) =>
      && HoldsAt(a, cp, s) && nlinks <= MAXSYMLINKS && dev in env && ino in env[dev]
      && Resolve(env, dev, ino, s, nlinks) == r
  }

  /** Goes on at an inode, if it can be read. */
  function Enter(env: Env, cp: nat, dev: string, ino: nat, nlinks: nat): Progress
    requires dev in env
  {
    if ino in env[dev] then Go(cp, dev, ino, nlinks) else Stop(Error(ReadError))
  }

  /** The component at `start`, and whether the string ends with it. */
  method TakeName(a: array<char>, start: nat, ghost s: string) returns (name: string, cp: nat, last: bool)
    requires HoldsAt(a[..], start, s)
    ensures name == s[..NameLen(s)] && HoldsAt(a[..], cp, s[NameLen(s)..]) && (last <==> NameLen(s) == |s|)
  {
    cp := PassName(a, start, s);
    NameIs(a[..], start, s);
    name := a[start..cp];
    CharAt(a[..], cp, s[NameLen(s)..], 0);
    last := a[cp] == NUL;
  }

  /** The device named at `cp`, and the path on it. */
  method EnterDevice(a: array<char>, start: nat, env: Env, nlinks: nat, ghost s: string)
      returns (p: Progress, ghost s': string)
    requires HoldsAt(a[..], start, s) && nlinks <= MAXSYMLINKS
    ensures Means(env, a[..], p, s', OnDevice(env, s, nlinks))
    ensures p.Go? ==> p.nlinks == nlinks
  {
    var dev, cp, last := TakeName(a, start, s);
    s' := s[NameLen(s)..];
    if dev !in env { return Stop(Error(NoDevice)), s'; }
    if last { return Stop(Device(dev)), s'; }
    p := Enter(env, cp, dev, ROOTINO, nlinks);
    EnterMeans(env, a[..], cp, dev, ROOTINO, s', nlinks);
  }

  lemma EnterMeans(env: Env, a: seq<char>, cp: nat, dev: string, ino: nat, s: string, nlinks: nat)
    requires HoldsAt(a, cp, s) && nlinks <= MAXSYMLINKS && dev in env
    ensures Means(env, a, Enter(env, cp, dev, ino, nlinks), s, Resolve(env, dev, ino, s, nlinks))
  {
  }

  /** Starts again at the beginning of the buffer, after a link has been put there. */
  method Restart(a: array<char>, env: Env, dev: string, parent: nat, nlinks: nat, ghost s: string)
      returns (p: Progress, ghost s': string)
    requires HoldsAt(a[..], 0, s) && nlinks <= MAXSYMLINKS && dev in env
    ensures Means(env, a[..], p, s', Again(env, dev, parent, s, nlinks))
    ensures p.Go? ==> p.nlinks == nlinks
  {
    s' := s;
    CharAt(a[..], 0, s, 0);
    var isDev := StrPrefix(a, s);
    if a[0] != '/' {
      p := Enter(env, 0, dev, parent, nlinks);
      EnterMeans(env, a[..], 0, dev, parent, s, nlinks);
    } else if !isDev {
      p := Enter(env, 0, dev, ROOTINO, nlinks);
      EnterMeans(env, a[..], 0, dev, ROOTINO, s, nlinks);
    } else {
      CharAt(a[..], 0, s, |DEV|);
      p, s' := EnterDevice(a, |DEV|, env, nlinks, s[|DEV|..]);
    }
  }

  /** strprefix, of the string at the beginning of the buffer. */
  method StrPrefix(a: array<char>, ghost s: string) returns (r: bool)
    requires HoldsAt(a[..], 0, s)
    ensures r <==> Prefix(DEV, s)
  {
    for k := 0 to |DEV|
      invariant k <= |s| && s[..k] == DEV[..k]
    {
      CharAt(a[..], 0, s, k);
      if a[k] != DEV[k] { return false; }
      assert s[..k + 1] == s[..k] + [s[k]];
    }
    r := true;
  }

  /** Goes on at the inode found for a component. */
  method FollowEntry(a: array<char>, cp: nat, env: Env, dev: string, parent: nat, ino: nat, nlinks: nat,
                     ghost rest: string, ghost n: nat)
      returns (p: Progress, ghost s': string)
    requires ValidEnv(env) && HoldsAt(a[..], cp, rest) && nlinks <= MAXSYMLINKS && dev in env
    requires a.Length == MAXPATHLEN + 1 && |rest| < n
    modifies a
    ensures Means(env, a[..], p, s', Follow(env, dev, parent, ino, rest, nlinks, n))
    ensures p.Go? ==> p.nlinks == nlinks + 1 || (p.nlinks == nlinks && |s'| < n)
  {
    s' := rest;
    if ino !in env[dev] { return Stop(Error(ReadError)), s'; }
    if !env[dev][ino].Link? { return Go(cp, dev, ino, nlinks), s'; }
    var target := env[dev][ino].target;
    var len := StrLen(a, cp, rest);
    if |target| + len + 1 >= MAXPATHLEN - 1 { return Stop(Error(NameTooLong)), s'; }
    if nlinks + 1 > MAXSYMLINKS { return Stop(Error(SymlinkLoop)), s'; }
    Splice(a, cp, target, rest);
    p, s' := Restart(a, env, dev, parent, nlinks + 1, target + rest);
  }

  /** One round of the walk: a component is taken off the string `s`. */
  method TakeComponent(a: array<char>, cp: nat, env: Env, dev: string, ino: nat, nlinks: nat, ghost s: string)
      returns (p: Progress, ghost s': string)
    requires ValidEnv(env) && HoldsAt(a[..], cp, s) && |s| > 0 && nlinks <= MAXSYMLINKS
    requires dev in env && ino in env[dev] && a.Length == MAXPATHLEN + 1
    modifies a
    ensures Means(env, a[..], p, s', Resolve(env, dev, ino, s, nlinks))
    ensures p.Go? ==> p.nlinks == nlinks + 1 || (p.nlinks == nlinks && |s'| < |s|)
  {
    s' := s;
    if !env[dev][ino].Dir? { return Stop(Error(NotDirectory)), s'; }
    var start := PassSlashes(a, cp, s);
    ghost var t := SkipSlashes(s);
    var end, fault := CheckedName(a, start, t);
    if fault.Bad? { return Stop(Error(fault.code)), s'; }
    NameIs(a[..], start, t);
    var name := a[start..end];
    if name !in env[dev][ino].entries { return Stop(Error(NoEntry)), s'; }
    p, s' := FollowEntry(a, end, env, dev, ino, env[dev][ino].entries[name], nlinks, t[NameLen(t)..], |s|);
  }

  /** The walk ends on every directory graph: each round follows one more link or leaves a
      shorter string. */
  method WalkPath(a: array<char>, first: Progress, env: Env, ghost s: string, ghost r: Opened) returns (result: Opened)
    requires ValidEnv(env) && Means(env, a[..], first, s, r) && a.Length == MAXPATHLEN + 1
    modifies a
    ensures result == r
  {
    var p := first;
    ghost var t := s;
    while p.Go?
      invariant Means(env, a[..], p, t, r)
      decreases p.Go?, if p.Go? then MAXSYMLINKS - p.nlinks else 0, |t|
    {
      CharAt(a[..], p.cp, t, 0);
      if a[p.cp] == NUL { return File(p.dev, p.ino); }
      p, t := TakeComponent(a, p.cp, env, p.dev, p.ino, p.nlinks, t);
    }
    result := p.r;
  }

  /** ffs_open_file: what the path names, whatever the links it meets. */
  method OpenFile(env: Env, path: string) returns (r: Opened)
    requires ValidEnv(env) && |path| <= MAXPATHLEN && NUL !in path
    ensures r == Open(env, path)
  {
    if |path| == 0 { return Error(NoEntry); }
    var a := new char[MAXPATHLEN + 1];
    CopyIn(a, path + [NUL]);
    assert a[..|path|] == a[..|path| + 1][..|path|] == path && a[|path|] == a[..|path| + 1][|path|] == NUL;
    var isDev := StrPrefix(a, path);
    if !isDev { return Error(NoEntry); }
    CharAt(a[..], 0, path, |DEV|);
    ghost var s;
    var p;
    p, s := EnterDevice(a, |DEV|, env, 0, path[|DEV|..]);
    r := WalkPath(a, p, env, s, Open(env, path));
  }
}
