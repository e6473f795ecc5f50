/**
  Mode bits without following symbolic links, crates/file-system/src/unix.rs, over an inode graph. What
  the process may not search, read or change is an input, and so is the graph at each moment, which
  others may change between two calls.
*/
module NoFollow {

  datatype Option<T> = None | Some(value: T)
  datatype Result<T, E> = Ok(value: T) | Err(error: E)

  datatype Node =
    | Directory(entries: map<string, nat>, mode: nat)
    | File(mode: nat)
    | Link(target: string, mode: nat)

  datatype World = World(nodes: map<nat, Node>, noSearch: set<nat>, noRead: set<nat>, notOwned: set<nat>)

  const ROOT: nat := 0

  datatype Errno = Missing | NotDir | Loop | Denied | Invalid
  datatype FsError = NotFound | SymlinkRejected | NotDirectory | Io

  /** The bits of st_mode. */
  function StMode(node: Node): nat {
    match node
    case Directory(_, mode) => 0x4000 + mode
    case File(mode) => 0x8000 + mode
    case Link(_, mode) => 0xA000 + mode
  }

  // The calls.

  /** The inode a name stands for in a directory, as statat finds it. */
  function Lookup(w: World, dir: nat, name: string): Result<nat, Errno> {
    if dir in w.noSearch then Err(Denied)
    else if dir !in w.nodes || !w.nodes[dir].Directory? || name !in w.nodes[dir].entries then Err(Missing)
    else if w.nodes[dir].entries[name] !in w.nodes then Err(Missing)
    else Ok(w.nodes[dir].entries[name])
  }

  /** openat for a directory, without following a link. */
  function OpenDirectory(w: World, dir: nat, name: string): Result<nat, Errno> {
    var found := Lookup(w, dir, name);
    if found.Err? then found
    else match w.nodes[found.value]
      case Directory(_, _) => found
      case Link(_, _) => Err(Loop)
      case File(_) => Err(NotDir)
  }

  /** openat for reading, without following a link. */
  function OpenLeaf(w: World, dir: nat, name: string): Result<nat, Errno> {
    var found := Lookup(w, dir, name);
    if found.Err? then found
    else if w.nodes[found.value].Link? then Err(Loop)
    else if found.value in w.noRead then Err(Denied)
    else found
  }

  /** fchmod of an open inode: its permission bits, and nothing else. */
  function Chmod(w: World, inode: nat, mode: nat): Result<World, Errno> {
    if inode in w.notOwned then Err(Denied)
    else if inode !in w.nodes then Ok(w)
    else Ok(w.(nodes := w.nodes[inode := w.nodes[inode].(mode := mode % 0x1000)]))
  }

  // Paths.

  function Split(s: string): (r: seq<string>)
    ensures |r| >= 1
  {
    if s == [] then [[]]
    else if s[0] == '/' then [[]] + Split(s[1..])
    else var r := Split(s[1..]); [[s[0]] + r[0]] + r[1..]
  }

  /** The parts that name something: neither empty nor a dot. */
  function Kept(parts: seq<string>): seq<string> {
    if parts == [] then []
    else (if parts[0] == [] || parts[0] == ['.'] then [] else [parts[0]]) + Kept(parts[1..])
  }

  function Components(path: string): Result<seq<string>, Errno> {
    if path == [] || path[0] != '/' then Err(Invalid)
    else
      var names := Kept(Split(path[1..]));
      if ['.', '.'] in names then Err(Invalid) else Ok(names)
  }

  /** A name of a directory entry. */
  predicate Proper(name: string) {
    name != [] && '/' !in name && name != ['.'] && name != ['.', '.']
  }

  function PathOf(names: seq<string>): string {
    if names == [] then [] else ['/'] + names[0] + PathOf(names[1..])
  }

  lemma {:induction false} SplitName(name: string, rest: string)
    requires '/' !in name
    ensures Split(name + ['/'] + rest) == [name] + Split(rest)
    ensures Split(name) == [name]
    decreases |name|
  {
    if name == [] {
      assert name + ['/'] + rest == ['/'] + rest;
    } else {
      assert name == [name[0]] + name[1..] && name[0] in name;
      var whole := name + ['/'] + rest;
      assert whole[1..] == name[1..] + ['/'] + rest;
      SplitName(name[1..], rest);
    }
  }

  /** Names and paths go back and forth: every list of proper names is what its path gives. */
  lemma ComponentsOfPath(names: seq<string>)
    requires names != [] && forall i | 0 <= i < |names| :: Proper(names[i])
    ensures Components(PathOf(names)) == Ok(names)
  {
    SplitPath(names);
    KeptProper(names);
    assert forall name | name in names :: Proper(name);
  }

  lemma {:induction false} SplitPath(names: seq<string>)
    requires names != [] && forall i | 0 <= i < |names| :: Proper(names[i])
    ensures PathOf(names) != [] && PathOf(names)[0] == '/' && Split(PathOf(names)[1..]) == names
  {
    var rest := PathOf(names[1..]);
    assert Proper(names[0]) && PathOf(names)[1..] == names[0] + rest;
    if |names| == 1 {
      SplitName(names[0], []);
      assert names[0] + rest == names[0] && names == [names[0]];
    } else {
      SplitPath(names[1..]);
      SplitMore(names[0], rest);
      assert names == [names[0]] + names[1..];
    }
  }

  lemma SplitMore(name: string, rest: string)
    requires '/' !in name && rest != [] && rest[0] == '/'
    ensures Split(name + rest) == [name] + Split(rest[1..])
  {
    SplitName(name, rest[1..]);
    assert name + rest == name + ['/'] + rest[1..];
  }

  lemma {:induction false} KeptProper(names: seq<string>)
    requires forall i | 0 <= i < |names| :: Proper(names[i])
    ensures Kept(names) == names
  {
    if names != [] {
      KeptProper(names[1..]);
    }
  }

  lemma {:induction false} SplitHasNoSlash(s: string)
    ensures forall part | part in Split(s) :: '/' !in part
  {
    if s != [] {
      var r := Split(s[1..]);
      SplitHasNoSlash(s[1..]);
      assert r[0] in r;
      assert forall part | part in r[1..] :: part in r;
    }
  }

  lemma {:induction false} KeptAreParts(parts: seq<string>)
    ensures forall name | name in Kept(parts) :: name in parts && name != [] && name != ['.']
  {
    if parts != [] {
      KeptAreParts(parts[1..]);
    }
  }

  /** Nothing else is dropped, and nothing is moved. */
  lemma {:induction false} KeptTogether(a: seq<string>, b: seq<string>)
    ensures Kept(a + b) == Kept(a) + Kept(b)
  {
    if a == [] {
      assert a + b == b;
    } else {
      KeptTogether(a[1..], b);
      var first := if a[0] == [] || a[0] == ['.'] then [] else [a[0]];
      assert (a + b)[1..] == a[1..] + b && (a + b)[0] == a[0];
      assert Kept(a + b) == first + Kept(a[1..] + b) && Kept(a) == first + Kept(a[1..]);
      Regroup(first, Kept(a[1..]), Kept(b));
    }
  }

  lemma Regroup(a: seq<string>, b: seq<string>, c: seq<string>)
    ensures a + (b + c) == (a + b) + c
  {
  }

  lemma {:induction false} KeptPart(parts: seq<string>, name: string)
    requires name in parts && name != [] && name != ['.']
    ensures name in Kept(parts)
  {
    if parts[0] != name {
      KeptPart(parts[1..], name);
    }
  }

  /** A path has components exactly when it is absolute and never goes up. */
  lemma ComponentsIff(path: string)
    ensures Components(path).Err? <==> path == [] || path[0] != '/' || ".." in Split(path[1..])
  {
    if path != [] {
      KeptAreParts(Split(path[1..]));
      if ".." in Split(path[1..]) {
        KeptPart(Split(path[1..]), "..");
      }
    }
  }

  lemma ComponentsAreProper(path: string)
    requires Components(path).Ok?
    ensures forall name | name in Components(path).value :: Proper(name)
  {
    SplitHasNoSlash(path[1..]);
    KeptAreParts(Split(path[1..]));
  }

  // The walk, one call at each moment.

  function Walk(at: nat -> World, moment: nat, dir: nat, names: seq<string>): Result<nat, Errno>
    decreases |names|
  {
    if names == [] then Ok(dir)
    else
      var next := OpenDirectory(at(moment), dir, names[0]);
      if next.Err? then next else Walk(at, moment + 1, next.value, names[1..])
  }

  function ParentOf(path: string, at: nat -> World): Result<(nat, string), Errno> {
    var names := Components(path);
    if names.Err? || names.value == [] then Err(Invalid)
    else
      var last := |names.value| - 1;
      var dir := Walk(at, 0, ROOT, names.value[..last]);
      if dir.Err? then Err(dir.error) else Ok((dir.value, names.value[last]))
  }

  method Parent(path: string, at: nat -> World) returns (r: Result<(nat, string), Errno>)
    ensures r == ParentOf(path, at)
  {
    var names := Components(path);
    if names.Err? || names.value == [] {
      return Err(Invalid);
    }
    var last := |names.value| - 1;
    var directories := names.value[..last];
    var directory := ROOT;
    for i := 0 to last
      invariant Walk(at, i, directory, directories[i..]) == Walk(at, 0, ROOT, directories)
    {
      var next := OpenDirectory(at(i), directory, directories[i]);
      assert directories[i..][1..] == directories[i + 1..];
      if next.Err? {
        return Err(next.error);
      }
      directory := next.value;
    }
    return Ok((directory, names.value[last]));
  }

  /** In `w`, the name leads from one real directory to another. */
  ghost predicate Enters(w: World, dir: nat, name: string, next: nat) {
    && dir in w.nodes && w.nodes[dir].Directory? && dir !in w.noSearch
    && name in w.nodes[dir].entries && w.nodes[dir].entries[name] == next
    && next in w.nodes && w.nodes[next].Directory?
  }

  /** Each name led from one real directory to the next at its own moment. */
  ghost predicate Trail(at: nat -> World, moment: nat, dirs: seq<nat>, names: seq<string>) {
    |dirs| == |names| + 1 && forall k | 0 <= k < |names| :: Enters(at(moment + k), dirs[k], names[k], dirs[k + 1])
  }

  /** Whatever others do between two calls, the walk reaches a directory exactly when each component, at
      the moment it was opened, was a real directory inside the one opened before it. */
  lemma {:induction false} WalkIff(at: nat -> World, moment: nat, dir: nat, names: seq<string>, reached: nat)
    ensures Walk(at, moment, dir, names) == Ok(reached) <==>
              exists dirs :: Trail(at, moment, dirs, names) && dirs[0] == dir && dirs[|names|] == reached
    decreases |names|
  {
    if names == [] {
      assert Trail(at, moment, [dir], names);
    } else {
      var next := OpenDirectory(at(moment), dir, names[0]);
      if next.Ok? {
        WalkIff(at, moment + 1, next.value, names[1..], reached);
      }
      if Walk(at, moment, dir, names) == Ok(reached) {
        var rest :| Trail(at, moment + 1, rest, names[1..]) && rest[0] == next.value && rest[|names| - 1] == reached;
        TrailLonger(at, moment, dir, rest, names);
      }
      if dirs :| Trail(at, moment, dirs, names) && dirs[0] == dir && dirs[|names|] == reached {
        TrailShorter(at, moment, dirs, names);
      }
    }
  }

  lemma TrailLonger(at: nat -> World, moment: nat, dir: nat, rest: seq<nat>, names: seq<string>)
    requires names != [] && Trail(at, moment + 1, rest, names[1..]) && Enters(at(moment), dir, names[0], rest[0])
    ensures Trail(at, moment, [dir] + rest, names)
  {
  }

  lemma TrailShorter(at: nat -> World, moment: nat, dirs: seq<nat>, names: seq<string>)
    requires names != [] && Trail(at, moment, dirs, names)
    ensures Enters(at(moment), dirs[0], names[0], dirs[1]) && Trail(at, moment + 1, dirs[1..], names[1..])
  {
  }
}
