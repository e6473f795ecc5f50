/**
  Reading and setting mode bits by a path, and the classification of a failed walk,
  crates/file-system/src/unix.rs and the error mapping of crates/file-system/src/lib.rs.
*/
module ModeBits {
  import opened NoFollow

  // One call at each moment: a path of n names takes n - 1 opens, then a stat, an open and a chmod.

  function Length(path: string): nat {
    if Components(path).Ok? then |Components(path).value| else 0
  }

  /** The kind of the first component that is not a directory, from `dir` on. */
  function ClassifyFrom(at: nat -> World, moment: nat, dir: nat, names: seq<string>): Option<FsError>
    decreases |names|
  {
    if names == [] then None
    else
      var found := Lookup(at(moment), dir, names[0]);
      if found.Err? then None
      else match at(moment).nodes[found.value]
        case Link(_, _) => Some(SymlinkRejected)
        case File(_) => Some(NotDirectory)
        case Directory(_, _) =>
          if |names| == 1 then None
          else
            var next := OpenDirectory(at(moment + 1), dir, names[0]);
            if next.Err? then None else ClassifyFrom(at, moment + 2, next.value, names[1..])
  }

  function Classification(path: string, at: nat -> World, moment: nat): Option<FsError> {
    if Components(path).Err? then None else ClassifyFrom(at, moment, ROOT, Components(path).value)
  }

  method ClassifyNames(names: seq<string>, at: nat -> World, start: nat) returns (r: Option<FsError>)
    ensures r == ClassifyFrom(at, start, ROOT, names)
  {
    var directory, moment := ROOT, start;
    for i := 0 to |names|
      invariant ClassifyFrom(at, moment, directory, names[i..]) == ClassifyFrom(at, start, ROOT, names)
    {
      assert names[i..][1..] == names[i + 1..];
      var found := Lookup(at(moment), directory, names[i]);
      if found.Err? {
        return None;
      }
      var kind := at(moment).nodes[found.value];
      if kind.Link? {
        return Some(SymlinkRejected);
      }
      if !kind.Directory? {
        return Some(NotDirectory);
      }
      if i + 1 == |names| {
        return None;
      }
      var next := OpenDirectory(at(moment + 1), directory, names[i]);
      if next.Err? {
        return None;
      }
      directory, moment := next.value, moment + 2;
    }
    return None;
  }

  method ClassifyAfterFailedIo(path: string, at: nat -> World, start: nat) returns (r: Option<FsError>)
    ensures r == Classification(path, at, start)
  {
    var names := Components(path);
    if names.Err? {
      return None;
    }
    r := ClassifyNames(names.value, at, start);
  }

  function MapIo(path: string, at: nat -> World, error: Errno): FsError {
    match error
    case Missing => NotFound
    case Denied => Io
    case Invalid => Io
    case NotDir => OrElse(Classification(path, at, Length(path) + 2), NotDirectory)
    case Loop => OrElse(Classification(path, at, Length(path) + 2), SymlinkRejected)
  }

  function OrElse(classified: Option<FsError>, otherwise: FsError): FsError {
    if classified.Some? then classified.value else otherwise
  }

  function ModeOf(path: string, at: nat -> World): Result<nat, FsError> {
    var parent := ParentOf(path, at);
    if parent.Err? then Err(MapIo(path, at, parent.error))
    else
      var now := at(Length(path) - 1);
      var found := Lookup(now, parent.value.0, parent.value.1);
      if found.Err? then Err(MapIo(path, at, found.error))
      else if now.nodes[found.value].Link? then Err(SymlinkRejected)
      else Ok(StMode(now.nodes[found.value]))
  }

  /** The inode that setting a mode opens. */
  function TargetOf(path: string, at: nat -> World): Result<nat, FsError> {
    var mode := ModeOf(path, at);
    if mode.Err? then Err(mode.error)
    else
      var parent := ParentOf(path, at).value;
      var file := OpenLeaf(at(Length(path)), parent.0, parent.1);
      if file.Err? then Err(MapIo(path, at, file.error)) else Ok(file.value)
  }

  function SetModeOf(path: string, mode: nat, at: nat -> World): Result<World, FsError> {
    var target := TargetOf(path, at);
    if target.Err? then Err(target.error)
    else
      var changed := Chmod(at(Length(path) + 1), target.value, mode);
      if changed.Err? then Err(MapIo(path, at, changed.error)) else Ok(changed.value)
  }

  /** A graph that nothing else changes. */
  function Fixed(w: World): nat -> World {
    (moment: nat) => w
  }

  class FileSystem {
    var world: World

    constructor (world: World)
      ensures this.world == world
    {
      this.world := world;
    }

    method UnixMode(path: string) returns (r: Result<nat, FsError>)
      ensures r == ModeOf(path, Fixed(world))
    {
      var parent := Parent(path, Fixed(world));
      if parent.Err? {
        return Err(MapIo(path, Fixed(world), parent.error));
      }
      var found := Lookup(world, parent.value.0, parent.value.1);
      if found.Err? {
        return Err(MapIo(path, Fixed(world), found.error));
      }
      if world.nodes[found.value].Link? {
        return Err(SymlinkRejected);
      }
      return Ok(StMode(world.nodes[found.value]));
    }

    /** A failed change leaves everything as it was. */
    method SetUnixMode(path: string, mode: nat) returns (r: Result<(), FsError>)
      modifies this
      ensures match SetModeOf(path, mode, Fixed(old(world)))
              case Ok(changed) => r == Ok(()) && world == changed
              case Err(error) => r == Err(error) && world == old(world)
    {
      var parent := Parent(path, Fixed(world));
      if parent.Err? {
        return Err(MapIo(path, Fixed(world), parent.error));
      }
      var found := Lookup(world, parent.value.0, parent.value.1);
      if found.Err? {
        return Err(MapIo(path, Fixed(world), found.error));
      }
      if world.nodes[found.value].Link? {
        return Err(SymlinkRejected);
      }
      var file := OpenLeaf(world, parent.value.0, parent.value.1);
      if file.Err? {
        return Err(MapIo(path, Fixed(world), file.error));
      }
      var changed := Chmod(world, file.value, mode);
      if changed.Err? {
        return Err(MapIo(path, Fixed(world), changed.error));
      }
      world := changed.value;
      return Ok(());
    }
  }

  // While others change the tree.

  /** The path names an inode: real directories led to the one that held its last name, at the moment
      each was used, and that name stood for this inode, which is not a link. */
  ghost predicate Names(path: string, at: nat -> World, inode: nat) {
    && Components(path).Ok? && Components(path).value != []
    && var names := Components(path).value;
       var last := |names| - 1;
       exists dirs :: Trail(at, 0, dirs, names[..last]) && dirs[0] == ROOT
         && Lookup(at(|names|), dirs[last], names[last]) == Ok(inode)
         && !at(|names|).nodes[inode].Link?
  }

  /** Whatever others do between two calls, a mode is set only on an inode the path names without
      passing through a link, and nothing but that inode's permission bits changes. */
  lemma SetModeFollowsNoLink(path: string, mode: nat, at: nat -> World)
    requires SetModeOf(path, mode, at).Ok?
    ensures var now := at(Length(path) + 1);
            exists inode :: Names(path, at, inode) && Chmod(now, inode, mode) == Ok(SetModeOf(path, mode, at).value)
  {
    var names := Components(path).value;
    var last := |names| - 1;
    var parent := ParentOf(path, at).value;
    WalkIff(at, 0, ROOT, names[..last], parent.0);
    var dirs :| Trail(at, 0, dirs, names[..last]) && dirs[0] == ROOT && dirs[last] == parent.0;
    var inode := TargetOf(path, at).value;
    assert Lookup(at(|names|), dirs[last], names[last]) == Ok(inode);
    assert Names(path, at, inode);
  }

  /** A name in a directory is that of a link, or of a file. */
  ghost predicate MeetsAt(w: World, dir: nat, name: string, error: FsError) {
    var found := Lookup(w, dir, name);
    && found.Ok?
    && ((error == SymlinkRejected && w.nodes[found.value].Link?) || (error == NotDirectory && w.nodes[found.value].File?))
  }

  /** The second walk looks at each component before it opens it: it entered these real directories, each
      at its own moment. */
  ghost predicate Entered(at: nat -> World, moment: nat, dirs: seq<nat>, names: seq<string>) {
    && 1 <= |dirs| <= |names|
    && forall j | 0 <= j < |dirs| - 1 :: Enters(at(moment + 2 * j + 1), dirs[j], names[j], dirs[j + 1])
  }

  /** Then it met a link or a file. */
  ghost predicate Met(at: nat -> World, moment: nat, dirs: seq<nat>, names: seq<string>, error: FsError) {
    && Entered(at, moment, dirs, names)
    && MeetsAt(at(moment + 2 * (|dirs| - 1)), dirs[|dirs| - 1], names[|dirs| - 1], error)
  }

  lemma MetLater(at: nat -> World, moment: nat, dir: nat, rest: seq<nat>, names: seq<string>, error: FsError)
    requires names != [] && Met(at, moment + 2, rest, names[1..], error) && Enters(at(moment + 1), dir, names[0], rest[0])
    ensures Met(at, moment, [dir] + rest, names, error)
  {
    EnteredLater(at, moment, dir, rest, names);
    var dirs, k := [dir] + rest, |rest| - 1;
    assert dirs[k + 1] == rest[k] && names[k + 1] == names[1..][k];
    assert moment + 2 * (k + 1) == moment + 2 + 2 * k;
  }

  lemma EnteredLater(at: nat -> World, moment: nat, dir: nat, rest: seq<nat>, names: seq<string>)
    requires names != [] && Entered(at, moment + 2, rest, names[1..]) && Enters(at(moment + 1), dir, names[0], rest[0])
    ensures Entered(at, moment, [dir] + rest, names)
  {
    var dirs := [dir] + rest;
    forall j | 0 <= j < |dirs| - 1 ensures Enters(at(moment + 2 * j + 1), dirs[j], names[j], dirs[j + 1]) {
      if j > 0 {
        assert Enters(at(moment + 2 + 2 * (j - 1) + 1), rest[j - 1], names[1..][j - 1], rest[j]);
        assert dirs[j] == rest[j - 1] && dirs[j + 1] == rest[j] && names[j] == names[1..][j - 1];
      }
    }
  }

  /** Whatever others do between two calls, the classification names what its walk met. */
  lemma {:induction false} ClassifiedWasMet(at: nat -> World, moment: nat, dir: nat, names: seq<string>) returns (dirs: seq<nat>)
    requires ClassifyFrom(at, moment, dir, names).Some?
    ensures Met(at, moment, dirs, names, ClassifyFrom(at, moment, dir, names).value) && dirs[0] == dir
    decreases |names|
  {
    var found := Lookup(at(moment), dir, names[0]);
    if at(moment).nodes[found.value].Directory? {
      var next := OpenDirectory(at(moment + 1), dir, names[0]);
      var rest := ClassifiedWasMet(at, moment + 2, next.value, names[1..]);
      MetLater(at, moment, dir, rest, names, ClassifyFrom(at, moment, dir, names).value);
      dirs := [dir] + rest;
    } else {
      dirs := [dir];
    }
  }

  /** What a failed call is reported as, whatever others do: a path without components as any other failure; a
      link or a file on the way, or a link at the leaf when a mode is to be set, as what the second walk
      meets, or as what the first one met when the second meets neither. */
  lemma ReportedAs(path: string, mode: nat, at: nat -> World)
    ensures Components(path).Err? || Components(path).value == [] ==>
              ModeOf(path, at) == Err(Io) && SetModeOf(path, mode, at) == Err(Io)
    ensures var parent, second := ParentOf(path, at), Classification(path, at, Length(path) + 2);
            && (parent == Err(Loop) ==> ModeOf(path, at) == Err(if second.Some? then second.value else SymlinkRejected))
            && (parent == Err(NotDir) ==> ModeOf(path, at) == Err(if second.Some? then second.value else NotDirectory))
            && (parent == Err(Missing) ==> ModeOf(path, at) == Err(NotFound))
            && (parent == Err(Denied) ==> ModeOf(path, at) == Err(Io))
            && (ModeOf(path, at).Ok? ==>
                var leaf := Lookup(at(Length(path)), parent.value.0, parent.value.1);
                leaf.Ok? && at(Length(path)).nodes[leaf.value].Link? ==>
                  SetModeOf(path, mode, at) == Err(if second.Some? then second.value else SymlinkRejected))
  {
  }

  // On a tree that nothing else changes.

  /** The node that a list of names leads to, when all but the last are real directories. */
  function NodeFrom(w: World, dir: nat, names: seq<string>, k: nat): Option<Node>
    requires k < |names|
    decreases |names|
  {
    var found := Lookup(w, dir, names[0]);
    if found.Err? then None
    else if k == 0 then Some(w.nodes[found.value])
    else if w.nodes[found.value].Directory? then NodeFrom(w, found.value, names[1..], k - 1)
    else None
  }

  /** Some component, reached through real directories, is a link; or is a file. */
  ghost predicate MeetsLink(w: World, dir: nat, names: seq<string>) {
    exists k :: 0 <= k < |names| && NodeFrom(w, dir, names, k).Some? && NodeFrom(w, dir, names, k).value.Link?
  }

  ghost predicate MeetsFile(w: World, dir: nat, names: seq<string>) {
    exists k :: 0 <= k < |names| && NodeFrom(w, dir, names, k).Some? && NodeFrom(w, dir, names, k).value.File?
  }

  /** A component, reached through real directories, is not there; or its directory may not be searched. */
  ghost predicate Misses(w: World, dir: nat, names: seq<string>)
    decreases |names|
  {
    && names != []
    && (|| Lookup(w, dir, names[0]) == Err(Missing)
        || (Lookup(w, dir, names[0]).Ok? && w.nodes[Lookup(w, dir, names[0]).value].Directory?
            && Misses(w, Lookup(w, dir, names[0]).value, names[1..])))
  }

  ghost predicate Barred(w: World, dir: nat, names: seq<string>)
    decreases |names|
  {
    && names != []
    && (|| Lookup(w, dir, names[0]) == Err(Denied)
        || (Lookup(w, dir, names[0]).Ok? && w.nodes[Lookup(w, dir, names[0]).value].Directory?
            && Barred(w, Lookup(w, dir, names[0]).value, names[1..])))
  }

  /** The walk and the lookup after it fail so exactly on such a component. */
  lemma {:induction false} WalkMisses(w: World, moment: nat, dir: nat, names: seq<string>, leaf: string)
    ensures var r := Walk(Fixed(w), moment, dir, names);
            && (Misses(w, dir, names + [leaf]) <==> r == Err(Missing) || (r.Ok? && Lookup(w, r.value, leaf) == Err(Missing)))
            && (Barred(w, dir, names + [leaf]) <==> r == Err(Denied) || (r.Ok? && Lookup(w, r.value, leaf) == Err(Denied)))
    decreases |names|
  {
    var all := names + [leaf];
    if names == [] {
      assert all[0] == leaf && all[1..] == [];
    } else {
      assert all[0] == names[0] && all[1..] == names[1..] + [leaf];
      var found := Lookup(w, dir, names[0]);
      if found.Ok? && w.nodes[found.value].Directory? {
        WalkMisses(w, moment + 1, found.value, names[1..], leaf);
      }
    }
  }

  lemma MeetsLater(w: World, dir: nat, names: seq<string>)
    requires names != [] && Lookup(w, dir, names[0]).Ok? && w.nodes[Lookup(w, dir, names[0]).value].Directory?
    ensures var next := Lookup(w, dir, names[0]).value;
            && (MeetsLink(w, dir, names) <==> MeetsLink(w, next, names[1..]))
            && (MeetsFile(w, dir, names) <==> MeetsFile(w, next, names[1..]))
  {
    var next := Lookup(w, dir, names[0]).value;
    forall k | 0 < k < |names| ensures NodeFrom(w, dir, names, k) == NodeFrom(w, next, names[1..], k - 1) {
    }
    if MeetsLink(w, next, names[1..]) {
      var k :| 0 <= k < |names[1..]| && NodeFrom(w, next, names[1..], k).Some? && NodeFrom(w, next, names[1..], k).value.Link?;
      assert NodeFrom(w, dir, names, k + 1) == NodeFrom(w, next, names[1..], k);
    }
    if MeetsFile(w, next, names[1..]) {
      var k :| 0 <= k < |names[1..]| && NodeFrom(w, next, names[1..], k).Some? && NodeFrom(w, next, names[1..], k).value.File?;
      assert NodeFrom(w, dir, names, k + 1) == NodeFrom(w, next, names[1..], k);
    }
  }

  /** The classifier reports exactly the kind of the first component that is not a directory. */
  lemma {:induction false} ClassifyIff(w: World, moment: nat, dir: nat, names: seq<string>)
    ensures ClassifyFrom(Fixed(w), moment, dir, names) == Some(SymlinkRejected) <==> MeetsLink(w, dir, names)
    ensures ClassifyFrom(Fixed(w), moment, dir, names) == Some(NotDirectory) <==> MeetsFile(w, dir, names)
    ensures ClassifyFrom(Fixed(w), moment, dir, names).Some? ==> MeetsLink(w, dir, names) || MeetsFile(w, dir, names)
    decreases |names|
  {
    if names != [] {
      var found := Lookup(w, dir, names[0]);
      assert found.Ok? ==> NodeFrom(w, dir, names, 0) == Some(w.nodes[found.value]);
      if found.Ok? && w.nodes[found.value].Directory? {
        MeetsLater(w, dir, names);
        ClassifyIff(w, moment + 2, found.value, names[1..]);
      }
    }
  }

  lemma {:induction false} NodeOfPrefix(w: World, dir: nat, names: seq<string>, n: nat, k: nat)
    requires k < n <= |names|
    ensures NodeFrom(w, dir, names[..n], k) == NodeFrom(w, dir, names, k)
    decreases k
  {
    var found := Lookup(w, dir, names[0]);
    if k > 0 && found.Ok? && w.nodes[found.value].Directory? {
      assert names[..n][1..] == names[1..][..n - 1];
      NodeOfPrefix(w, found.value, names[1..], n - 1, k - 1);
    }
  }

  /** A link or file is met on the way to the last name, or is what the last name stands for. */
  lemma MeetsAtLast(w: World, dir: nat, names: seq<string>)
    requires names != []
    ensures var last := |names| - 1;
            var node := NodeFrom(w, dir, names, last);
            && (MeetsLink(w, dir, names) <==> MeetsLink(w, dir, names[..last]) || (node.Some? && node.value.Link?))
            && (MeetsFile(w, dir, names) <==> MeetsFile(w, dir, names[..last]) || (node.Some? && node.value.File?))
  {
    var last := |names| - 1;
    forall k | 0 <= k < last ensures NodeFrom(w, dir, names[..last], k) == NodeFrom(w, dir, names, k) {
      NodeOfPrefix(w, dir, names, last, k);
    }
  }

  /** The walk stops with the kind of what it meets, and otherwise leads to the last name's directory. */
  lemma {:induction false} WalkMeets(w: World, moment: nat, dir: nat, names: seq<string>, leaf: string)
    ensures var r := Walk(Fixed(w), moment, dir, names);
            && (r == Err(Loop) <==> MeetsLink(w, dir, names))
            && (r == Err(NotDir) <==> MeetsFile(w, dir, names))
            && NodeFrom(w, dir, names + [leaf], |names|)
               == (if r.Err? || Lookup(w, r.value, leaf).Err? then None else Some(w.nodes[Lookup(w, r.value, leaf).value]))
            && r != Err(Invalid)
    decreases |names|
  {
    var all := names + [leaf];
    if names == [] {
      assert all[0] == leaf;
    } else {
      var found := Lookup(w, dir, names[0]);
      assert all[0] == names[0] && all[1..] == names[1..] + [leaf];
      assert found.Ok? ==> NodeFrom(w, dir, names, 0) == Some(w.nodes[found.value]);
      if found.Ok? && w.nodes[found.value].Directory? {
        MeetsLater(w, dir, names);
        WalkMeets(w, moment + 1, found.value, names[1..], leaf);
      }
    }
  }

  /**
    A mode is read exactly when real directories lead to a last component that is not a link, and it is
    that node's. A link anywhere on the way, or at the end, is rejected as such; a file on the way is
    not a directory.
  */
  lemma ModeIff(w: World, path: string)
    requires Components(path).Ok? && Components(path).value != []
    ensures var names := Components(path).value;
            var last := |names| - 1;
            var node := NodeFrom(w, ROOT, names, last);
            var mode := ModeOf(path, Fixed(w));
            && (mode.Ok? <==> node.Some? && !node.value.Link?)
            && (mode.Ok? ==> mode.value == StMode(node.value))
            && (mode == Err(SymlinkRejected) <==> MeetsLink(w, ROOT, names))
            && (mode == Err(NotDirectory) <==> MeetsFile(w, ROOT, names[..last]))
            && (mode == Err(NotFound) <==> Misses(w, ROOT, names))
            && (mode == Err(Io) <==> Barred(w, ROOT, names))
  {
    var names := Components(path).value;
    var last := |names| - 1;
    WalkMeets(w, 0, ROOT, names[..last], names[last]);
    WalkMisses(w, 0, ROOT, names[..last], names[last]);
    assert names[..last] + [names[last]] == names;
    MeetsAtLast(w, ROOT, names);
    ClassifyIff(w, |names| + 2, ROOT, names);
  }

  // Setting a mode.

  /** The inode a path names, through no link. */
  function InodeOf(w: World, path: string): Option<nat> {
    var parent := ParentOf(path, Fixed(w));
    if parent.Err? then None
    else
      var found := Lookup(w, parent.value.0, parent.value.1);
      if found.Err? || w.nodes[found.value].Link? then None else Some(found.value)
  }

  /** A mode is set exactly where one can be read, on an inode that may be opened and is owned; where none
      can be read the error is the same. */
  lemma SetModeIff(w: World, path: string, mode: nat)
    ensures var read, changed := ModeOf(path, Fixed(w)), SetModeOf(path, mode, Fixed(w));
            && (read.Ok? <==> InodeOf(w, path).Some?)
            && (read.Err? ==> changed == Err(read.error))
            && (read.Ok? ==>
                var inode := InodeOf(w, path).value;
                if inode in w.noRead || inode in w.notOwned then changed == Err(Io) else changed.Ok?)
  {
  }

  /** The same graph but for one inode's permission bits. */
  ghost predicate OnlyMode(w: World, v: World, inode: nat) {
    && v == w.(nodes := v.nodes) && v.nodes.Keys == w.nodes.Keys
    && forall i | i in w.nodes ::
         if i == inode then v.nodes[i] == w.nodes[i].(mode := v.nodes[i].mode) else v.nodes[i] == w.nodes[i]
  }

  lemma {:induction false} WalkKeeps(w: World, v: World, inode: nat, moment: nat, dir: nat, names: seq<string>)
    requires OnlyMode(w, v, inode)
    ensures Walk(Fixed(v), moment, dir, names) == Walk(Fixed(w), moment, dir, names)
    ensures ClassifyFrom(Fixed(v), moment, dir, names) == ClassifyFrom(Fixed(w), moment, dir, names)
    decreases |names|
  {
    if names != [] {
      assert Lookup(v, dir, names[0]) == Lookup(w, dir, names[0]);
      var next := OpenDirectory(w, dir, names[0]);
      if next.Ok? {
        WalkKeeps(w, v, inode, moment + 1, next.value, names[1..]);
        WalkKeeps(w, v, inode, moment + 2, next.value, names[1..]);
      }
    }
  }

  lemma ParentKeeps(w: World, v: World, inode: nat, path: string)
    requires OnlyMode(w, v, inode)
    ensures ParentOf(path, Fixed(v)) == ParentOf(path, Fixed(w))
    ensures Classification(path, Fixed(v), Length(path) + 2) == Classification(path, Fixed(w), Length(path) + 2)
  {
    if Components(path).Ok? && Components(path).value != [] {
      var names := Components(path).value;
      WalkKeeps(w, v, inode, 0, ROOT, names[..|names| - 1]);
      WalkKeeps(w, v, inode, |names| + 2, ROOT, names);
    }
  }

  /**
    On a tree that nothing else changes, setting a mode changes exactly the permission bits of the inode
    the path names: every path that names that inode then reads its kind with the new bits, and every
    other path reads what it read before.
  */
  lemma SetModeIsExact(w: World, path: string, mode: nat, other: string)
    requires SetModeOf(path, mode, Fixed(w)).Ok?
    ensures var v := SetModeOf(path, mode, Fixed(w)).value;
            var named := InodeOf(w, path);
            && named.Some? && named.value in w.nodes && OnlyMode(w, v, named.value)
            && v.nodes[named.value].mode == mode % 0x1000
            && InodeOf(v, other) == InodeOf(w, other)
            && ModeOf(other, Fixed(v)) ==
               if InodeOf(w, other) == named then Ok(StMode(w.nodes[named.value].(mode := mode % 0x1000)))
               else ModeOf(other, Fixed(w))
  {
    var v := SetModeOf(path, mode, Fixed(w)).value;
    var inode := TargetOf(path, Fixed(w)).value;
    assert InodeOf(w, path) == Some(inode) && inode in w.nodes;
    assert OnlyMode(w, v, inode);
    ParentKeeps(w, v, inode, other);
    var parent := ParentOf(other, Fixed(w));
    if parent.Ok? {
      assert Lookup(v, parent.value.0, parent.value.1) == Lookup(w, parent.value.0, parent.value.1);
    }
  }
}
