/** Resolving an absolute pathname (assign2/assign1/pathname.c): a walk from the root over the components. */
module Pathname {
  import opened Basics
  import opened Disksim
  import opened CacheSpec
  import opened CacheMem
  import opened Inode
  import opened Directory

  const MAXPATH := 1024
  const SLASH: Byte := 47

  // ---------------------------------------------------------------- strtok(path, "/")

  function NameLength(p: CString): (n: nat)
    ensures n <= |p|
    ensures forall k :: 0 <= k < n ==> p[k] != SLASH
    ensures n < |p| ==> p[n] == SLASH
  {
    if p == [] || p[0] == SLASH then 0 else NameLength(p[1..]) + 1
  }

  function SkipSlashes(p: CString): (r: CString)
    ensures |r| <= |p| && (r != [] ==> r[0] != SLASH)
  {
    if p != [] && p[0] == SLASH then SkipSlashes(p[1..]) else p
  }

  /** The next token and what is left after it. */
  function Strtok(p: CString): (r: (Option<CString>, CString))
    ensures r.0.Some? ==> |r.1| < |p| && r.0.value != []
  {
    var q := SkipSlashes(p);
    if q == [] then (None, []) else (Some(q[..NameLength(q)]), q[NameLength(q)..])
  }

  function Components(p: CString): seq<CString>
    decreases |p|
  {
    var (token, rest) := Strtok(p);
    if token.None? then [] else [token.value] + Components(rest)
  }

  predicate IsName(c: CString) { c != [] && SLASH !in c }

  lemma {:induction false} ComponentsAreNames(p: CString)
    ensures forall k :: 0 <= k < |Components(p)| ==> IsName(Components(p)[k])
    decreases |p|
  {
    var (token, rest) := Strtok(p);
    if token.Some? {
      ComponentsAreNames(rest);
    }
  }

  /** Appending "/name" to a path appends one component. */
  lemma {:induction false} ComponentsOfChild(p: CString, c: CString)
    requires IsName(c)
    ensures Components(p + [SLASH] + c) == Components(p) + [c]
    decreases |p|
  {
    if p == [] {
      LastComponent(c);
      assert p + [SLASH] + c == [SLASH] + c;
      assert ([SLASH] + c)[1..] == c;
    } else if p[0] == SLASH {
      assert (p + [SLASH] + c)[1..] == p[1..] + [SLASH] + c;
      ComponentsOfChild(p[1..], c);
    } else {
      var n := NameLength(p);
      ComponentsOfChild(p[n..], c);
      FirstComponent(p, c);
      assert [p[..n]] + (Components(p[n..]) + [c]) == ([p[..n]] + Components(p[n..])) + [c];
    }
  }

  lemma FirstComponent(p: CString, c: CString)
    requires p != [] && p[0] != SLASH
    ensures var n := NameLength(p);
            && Components(p + [SLASH] + c) == [p[..n]] + Components(p[n..] + [SLASH] + c)
            && Components(p) == [p[..n]] + Components(p[n..])
  {
    var n := NameLength(p);
    NameLengthOfPrefix(p, [SLASH] + c);
    assert p + ([SLASH] + c) == p + [SLASH] + c;
    assert (p + [SLASH] + c)[..n] == p[..n] && (p + [SLASH] + c)[n..] == p[n..] + [SLASH] + c;
  }

  lemma {:induction false} NameLengthOfPrefix(p: CString, q: CString)
    requires q != [] && q[0] == SLASH
    ensures NameLength(p + q) == NameLength(p)
  {
    if p == [] {
      assert p + q == q;
    } else {
      assert (p + q)[1..] == p[1..] + q;
      NameLengthOfPrefix(p[1..], q);
    }
  }

  lemma LastComponent(c: CString)
    requires IsName(c)
    ensures Components(c) == [c]
  {
    assert forall k :: 0 <= k < |c| ==> c[k] in c;
    assert NameLength(c) == |c|;
    assert c[..|c|] == c && c[|c|..] == [];
    assert Components([]) == [];
  }

  // ---------------------------------------------------------------- pathname_lookup

  /** The walk over a list of components, on the disk itself. */
  ghost function Walk(disk: Disk, isize: nat, names: seq<CString>, inumber: int): int
    requires GoodDisk(disk, isize)
  {
    if names == [] then inumber
    else
      match FindNameOnDisk(disk, isize, names[0], inumber)
      case Some(n) => Walk(disk, isize, names[1..], n)
      case None => FAILURE
  }

  predicate ValidPath(pathname: CString) {
    pathname != [] && pathname[0] == SLASH && |pathname| < MAXPATH
  }

  /** The inumber that a pathname stands for. */
  ghost function Resolve(disk: Disk, isize: nat, pathname: CString): int
    requires GoodDisk(disk, isize)
  {
    if ValidPath(pathname) then Walk(disk, isize, Components(pathname), ROOT_INUMBER) else FAILURE
  }

  /** The components that a loop with this token and rest still has to visit. */
  function Remaining(token: Option<CString>, rest: CString): seq<CString> {
    if token.None? then [] else [token.value] + Components(rest)
  }

  method PathnameLookup(fs: UnixFileSystem, pathname: CString, frame: nat) returns (inumber: int)
    requires fs.Ok()
    modifies fs.cache.plain, fs.cache.prot
    ensures fs.Ok() && FAILURE <= inumber < 65536
    ensures GoodDisk(fs.disk, fs.isize) ==> inumber == Resolve(fs.disk, fs.isize, pathname)
  {
    if !ValidPath(pathname) {
      return FAILURE;
    }
    inumber := ROOT_INUMBER;
    var (subPath, rest) := Strtok(pathname);
    assert Components(pathname) == Remaining(subPath, rest);
    while subPath != None
      invariant fs.Ok() && 0 <= inumber < 65536
      invariant GoodDisk(fs.disk, fs.isize) ==>
                  Resolve(fs.disk, fs.isize, pathname)
                  == Walk(fs.disk, fs.isize, Remaining(subPath, rest), inumber)
      decreases subPath != None, |rest|
    {
      var ret, member := FindName(fs, subPath.value, inumber, frame);
      assert Remaining(subPath, rest) != [] && Remaining(subPath, rest)[0] == subPath.value;
      assert Remaining(subPath, rest)[1..] == Components(rest);
      if ret == SUCCESS {
        inumber := member;
      } else {
        return FAILURE;
      }
      var next := Strtok(rest);
      subPath, rest := next.0, next.1;
    }
    assert Remaining(subPath, rest) == [];
  }

  // ---------------------------------------------------------------- children

  lemma {:induction false} WalkChild(disk: Disk, isize: nat, names: seq<CString>, name: CString, inumber: int)
    requires GoodDisk(disk, isize)
    ensures Walk(disk, isize, names + [name], inumber)
            == var parent := Walk(disk, isize, names, inumber);
               match FindNameOnDisk(disk, isize, name, parent)
               case Some(n) => n
               case None => FAILURE
  {
    if names == [] {
      assert names + [name] == [name];
      assert [name][1..] == [];
    } else {
      assert (names + [name])[1..] == names[1..] + [name];
      match FindNameOnDisk(disk, isize, names[0], inumber)
      case Some(n) => WalkChild(disk, isize, names[1..], name, n);
      case None =>
    }
  }

  /** Looking up parent/name is looking for name in the directory that parent resolves to. */
  lemma ResolveChild(disk: Disk, isize: nat, parent: CString, name: CString)
    requires GoodDisk(disk, isize) && IsName(name)
    requires ValidPath(parent) && |parent| + 1 + |name| < MAXPATH
    ensures Resolve(disk, isize, parent + [SLASH] + name)
            == match FindNameOnDisk(disk, isize, name, Resolve(disk, isize, parent))
               case Some(n) => n
               case None => FAILURE
  {
    ComponentsOfChild(parent, name);
    WalkChild(disk, isize, Components(parent), name, ROOT_INUMBER);
  }
}
