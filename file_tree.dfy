/**
 * The directory tree the file list is displayed as (FileTree.jsx).
 *
 * `buildFileTree` splits each file's `metadata.name` on `/`, walks a
 * `currentLevel` reference down from the root, creating a `dirs` entry for
 * every segment but the last when it is missing, and pushes the file onto
 * the `files` list of the level it reaches.
 *
 * The tree is a value `Node(dirs, files)`; an empty `dirs` map or `files`
 * list stands for the property being absent (the source creates each one
 * only right before it adds to it). `Insert` and `Build` are the functional
 * specification; `BuildFileTree` is the imperative walk with an own-property
 * directory lookup, proved equal to it. The lookup as written, which also
 * finds inherited properties, is `InsertAsWritten`/`BuildAsWritten` below.
 */
module FileTree {

  import opened Wrappers
  import opened JsString
  import opened FileRecord

  datatype Node = Node(dirs: map<string, Node>, files: seq<FileEntry>)

  const Empty: Node := Node(map[], [])

  /** The `/`-separated segments of a file's name. */
  function Segments(f: FileEntry): (parts: seq<string>)
    ensures |parts| >= 1
  {
    Split(f.metadata.name, '/')
  }

  /** The directory segments: every segment but the last. */
  function DirOf(f: FileEntry): seq<string>
  {
    AllButLast(Segments(f))
  }

  /** The name a tree leaf shows: `metadata.name.split('/').pop()`. */
  function DisplayName(f: FileEntry): string
  {
    Last(Segments(f))
  }

  /** Adds `f` to the `files` of the node reached through `dir`, creating
      the directories on the way that do not exist yet. */
  function Insert(t: Node, dir: seq<string>, f: FileEntry): Node
    decreases |dir|
  {
    if dir == [] then t.(files := t.files + [f])
    else
      var k := dir[0];
      var child := if k in t.dirs then t.dirs[k] else Empty;
      t.(dirs := t.dirs[k := Insert(child, dir[1..], f)])
  }

  /** The tree of a file list: the files inserted one after the other. */
  function Build(fs: seq<FileEntry>): Node
  {
    if fs == [] then Empty
    else
      var last := fs[|fs| - 1];
      Insert(Build(fs[..|fs| - 1]), DirOf(last), last)
  }

  /** The node reached from `t` by following `path` through `dirs`. */
  function Lookup(t: Node, path: seq<string>): Option<Node>
    decreases |path|
  {
    if path == [] then Some(t)
    else if path[0] in t.dirs then Lookup(t.dirs[path[0]], path[1..])
    else None
  }

  /** The files listed at `path`; none when there is no node there. */
  function FilesAt(t: Node, path: seq<string>): seq<FileEntry>
  {
    match Lookup(t, path)
    case Some(n) => n.files
    case None => []
  }

  predicate IsPrefix(p: seq<string>, q: seq<string>)
  {
    |p| <= |q| && q[..|p|] == p
  }

  /** The files of `fs` whose directory segments are `path`, in list order. */
  function FilesUnder(fs: seq<FileEntry>, path: seq<string>): seq<FileEntry>
  {
    if fs == [] then []
    else
      var last := fs[|fs| - 1];
      FilesUnder(fs[..|fs| - 1], path) + (if DirOf(last) == path then [last] else [])
  }

  /** Number of files listed anywhere in the tree. */
  ghost function Count(t: Node): nat
  {
    |t.files| + CountIn(t, t.dirs.Keys)
  }

  ghost function CountIn(t: Node, ks: set<string>): nat
    requires ks <= t.dirs.Keys
    decreases t, ks
  {
    if ks == {} then 0
    else
      var k :| k in ks;
      Count(t.dirs[k]) + CountIn(t, ks - {k})
  }

  // ---------------------------------------------------------------------
  // Properties of Insert and Build

  lemma {:induction false} LookupEmpty(path: seq<string>)
    ensures Lookup(Empty, path).Some? <==> path == []
  {
  }

  /** Inserting keeps every node and every file already in the tree (an
      existing directory is reused, never replaced), creates exactly the
      nodes along `dir`, and appends `f` to the list at `dir` only. */
  lemma {:induction false} InsertLookup(t: Node, dir: seq<string>, f: FileEntry, q: seq<string>)
    ensures Lookup(Insert(t, dir, f), q).Some? <==> Lookup(t, q).Some? || IsPrefix(q, dir)
    ensures FilesAt(Insert(t, dir, f), q) == FilesAt(t, q) + (if q == dir then [f] else [])
    decreases |dir|
  {
    if dir != [] && q != [] && q[0] == dir[0] {
      var k := dir[0];
      var child := if k in t.dirs then t.dirs[k] else Empty;
      InsertLookup(child, dir[1..], f, q[1..]);
      assert IsPrefix(q, dir) <==> IsPrefix(q[1..], dir[1..]);
      assert q == dir <==> q[1..] == dir[1..];
      if k !in t.dirs {
        LookupEmpty(q[1..]);
      }
    } else if dir != [] && q != [] {
      assert !IsPrefix(q, dir);
    }
  }

  /** Placement and order: the files at any path are exactly the input files
      whose directory segments are that path, in input order. */
  lemma {:induction false} BuildFilesAt(fs: seq<FileEntry>, q: seq<string>)
    ensures FilesAt(Build(fs), q) == FilesUnder(fs, q)
  {
    if fs != [] {
      var last := fs[|fs| - 1];
      BuildFilesAt(fs[..|fs| - 1], q);
      InsertLookup(Build(fs[..|fs| - 1]), DirOf(last), last, q);
    }
  }

  /** Directories: a node exists at `q` exactly when `q` is the root or a
      leading run of some file's directory segments, taken literally. */
  lemma {:induction false} BuildLookup(fs: seq<FileEntry>, q: seq<string>)
    ensures Lookup(Build(fs), q).Some? <==>
            q == [] || exists i :: 0 <= i < |fs| && IsPrefix(q, DirOf(fs[i]))
  {
    if fs == [] {
      LookupEmpty(q);
    } else {
      var init := fs[..|fs| - 1];
      var last := fs[|fs| - 1];
      BuildLookup(init, q);
      InsertLookup(Build(init), DirOf(last), last, q);
      if exists i :: 0 <= i < |fs| && IsPrefix(q, DirOf(fs[i])) {
        var i :| 0 <= i < |fs| && IsPrefix(q, DirOf(fs[i]));
        if i < |init| {
          assert init[i] == fs[i];
        }
      }
    }
  }

  lemma {:induction false} FilesUnderMember(fs: seq<FileEntry>, q: seq<string>, f: FileEntry)
    ensures f in FilesUnder(fs, q) <==> f in fs && DirOf(f) == q
  {
    if fs != [] {
      var init := fs[..|fs| - 1];
      FilesUnderMember(init, q, f);
      assert fs == init + [fs[|fs| - 1]];
    }
  }

  /** Every input file is listed at the node of its own directory segments
      and at no other node. */
  lemma PlacedExactlyOnce(fs: seq<FileEntry>, f: FileEntry, q: seq<string>)
    requires f in fs
    ensures f in FilesAt(Build(fs), q) <==> q == DirOf(f)
  {
    BuildFilesAt(fs, q);
    FilesUnderMember(fs, q, f);
  }

  /** A name without `/` puts the file in the root's own list. */
  lemma PlainNameAtRoot(fs: seq<FileEntry>, f: FileEntry)
    requires f in fs && '/' !in f.metadata.name
    ensures f in Build(fs).files
  {
    SplitPlain(f.metadata.name, '/');
    PlacedExactlyOnce(fs, f, []);
  }

  lemma {:induction false} CountInRemove(t: Node, ks: set<string>, k: string)
    requires ks <= t.dirs.Keys && k in ks
    ensures CountIn(t, ks) == Count(t.dirs[k]) + CountIn(t, ks - {k})
    decreases ks
  {
    var k' :| k' in ks && CountIn(t, ks) == Count(t.dirs[k']) + CountIn(t, ks - {k'});
    if k' != k {
      CountInRemove(t, ks - {k'}, k);
      CountInRemove(t, ks - {k}, k');
      assert ks - {k'} - {k} == ks - {k} - {k'};
    }
  }

  lemma {:induction false} CountInSame(t: Node, t': Node, ks: set<string>)
    requires ks <= t.dirs.Keys && ks <= t'.dirs.Keys
    requires forall k :: k in ks ==> Count(t.dirs[k]) == Count(t'.dirs[k])
    ensures CountIn(t, ks) == CountIn(t', ks)
    decreases ks
  {
    if ks != {} {
      var k :| k in ks;
      CountInRemove(t, ks, k);
      CountInRemove(t', ks, k);
      CountInSame(t, t', ks - {k});
    }
  }

  lemma {:induction false} CountInsert(t: Node, dir: seq<string>, f: FileEntry)
    ensures Count(Insert(t, dir, f)) == Count(t) + 1
    decreases |dir|
  {
    var t' := Insert(t, dir, f);
    if dir == [] {
      CountInSame(t, t', t.dirs.Keys);
    } else {
      var k := dir[0];
      var child := if k in t.dirs then t.dirs[k] else Empty;
      CountInsert(child, dir[1..], f);
      var rest := t.dirs.Keys - {k};
      CountInRemove(t', t'.dirs.Keys, k);
      assert t'.dirs.Keys - {k} == rest;
      CountInSame(t, t', rest);
      if k in t.dirs {
        CountInRemove(t, t.dirs.Keys, k);
      } else {
        assert t.dirs.Keys == rest;
        assert Count(Empty) == 0;
      }
    }
  }

  /** Every input file is listed exactly once, so the tree holds as many
      files as the input list. */
  lemma {:induction false} BuildCount(fs: seq<FileEntry>)
    ensures Count(Build(fs)) == |fs|
  {
    if fs == [] {
      assert Count(Empty) == 0;
    } else {
      var last := fs[|fs| - 1];
      BuildCount(fs[..|fs| - 1]);
      CountInsert(Build(fs[..|fs| - 1]), DirOf(last), last);
    }
  }

  /** The displayed leaf name is the part of the name after its last `/`:
      the name is the directory segments joined with `/`, then a `/` when
      there are any, then the leaf, and the leaf holds no `/`. */
  lemma DisplayNameIsLastSegment(f: FileEntry)
    ensures '/' !in DisplayName(f)
    ensures f.metadata.name ==
            (if DirOf(f) == [] then "" else Join(DirOf(f), '/') + "/") + DisplayName(f)
  {
    var parts := Segments(f);
    JoinSplit(f.metadata.name, '/');
    if |parts| > 1 {
      JoinAppend(DirOf(f), DisplayName(f), '/');
      assert DirOf(f) + [DisplayName(f)] == parts;
    }
  }

  // ---------------------------------------------------------------------
  // The imperative walk. Directory objects live in a store `levels`; a
  // reference to one is its index, and `currentLevel` is the index `cur`.

  /** A directory object: its `dirs` hold the indices of its sub-directories. */
  datatype Level = Level(dirs: map<string, nat>, files: seq<FileEntry>)

  /** Every reference points to a later object of the store. */
  predicate Linked(levels: seq<Level>)
  {
    forall i, k :: 0 <= i < |levels| && k in levels[i].dirs ==> i < levels[i].dirs[k] < |levels|
  }

  /** `paths[i]` is the path from the root (index 0) to object `i`. */
  ghost predicate Labelled(levels: seq<Level>, paths: seq<seq<string>>)
  {
    && |levels| >= 1
    && |paths| == |levels|
    && paths[0] == []
    && Linked(levels)
    && forall i, k :: 0 <= i < |levels| && k in levels[i].dirs ==>
         paths[levels[i].dirs[k]] == paths[i] + [k]
  }

  /** The tree value held by object `i` and the objects it references. */
  function Reify(levels: seq<Level>, i: nat): Node
    requires Linked(levels) && i < |levels|
    decreases |levels| - i
  {
    Node(map k | k in levels[i].dirs :: Reify(levels, levels[i].dirs[k]), levels[i].files)
  }

  /** The object reached from object `i` by following `q`. */
  function Follow(levels: seq<Level>, i: nat, q: seq<string>): (r: Option<nat>)
    requires Linked(levels) && i < |levels|
    ensures r.Some? ==> r.value < |levels|
    decreases |q|
  {
    if q == [] then Some(i)
    else if q[0] in levels[i].dirs then Follow(levels, levels[i].dirs[q[0]], q[1..])
    else None
  }

  /** `levels'` is `levels` with object `c` changed and objects appended. */
  ghost predicate ChangedOnly(levels: seq<Level>, paths: seq<seq<string>>,
                              levels': seq<Level>, paths': seq<seq<string>>, c: nat)
  {
    && Labelled(levels, paths)
    && Labelled(levels', paths')
    && c < |levels| <= |levels'|
    && (forall j :: 0 <= j < |levels| ==> paths'[j] == paths[j])
    && (forall j :: 0 <= j < |levels| && j != c ==> levels'[j] == levels[j])
  }

  /** `t` with the node at `p` replaced by `sub`. */
  function Replace(t: Node, p: seq<string>, sub: Node): Node
    decreases |p|
  {
    if p == [] then sub
    else if p[0] in t.dirs then t.(dirs := t.dirs[p[0] := Replace(t.dirs[p[0]], p[1..], sub)])
    else t
  }

  /** `t` with the directories along `p` created where missing. */
  function Ensure(t: Node, p: seq<string>): Node
    decreases |p|
  {
    if p == [] then t
    else
      var child := if p[0] in t.dirs then t.dirs[p[0]] else Empty;
      t.(dirs := t.dirs[p[0] := Ensure(child, p[1..])])
  }

  function AddDir(n: Node, k: string): Node
  {
    if k in n.dirs then n else n.(dirs := n.dirs[k := Empty])
  }

  lemma {:induction false} EnsureStep(t: Node, p: seq<string>, k: string)
    ensures Lookup(Ensure(t, p), p).Some?
    ensures Ensure(t, p + [k]) == Replace(Ensure(t, p), p, AddDir(Lookup(Ensure(t, p), p).value, k))
    decreases |p|
  {
    if p == [] {
      assert [k][1..] == [];
      if k in t.dirs {
        assert t.dirs[k := t.dirs[k]] == t.dirs;
      }
    } else {
      var child := if p[0] in t.dirs then t.dirs[p[0]] else Empty;
      assert (p + [k])[1..] == p[1..] + [k];
      EnsureStep(child, p[1..], k);
    }
  }

  lemma {:induction false} InsertAsEnsure(t: Node, p: seq<string>, f: FileEntry)
    ensures Lookup(Ensure(t, p), p).Some?
    ensures Insert(t, p, f) ==
            Replace(Ensure(t, p), p, Lookup(Ensure(t, p), p).value.(files := Lookup(Ensure(t, p), p).value.files + [f]))
    decreases |p|
  {
    if p != [] {
      var child := if p[0] in t.dirs then t.dirs[p[0]] else Empty;
      InsertAsEnsure(child, p[1..], f);
    }
  }

  lemma {:induction false} FollowLookup(levels: seq<Level>, i: nat, q: seq<string>, c: nat)
    requires Linked(levels) && i < |levels|
    requires Follow(levels, i, q) == Some(c)
    ensures Lookup(Reify(levels, i), q) == Some(Reify(levels, c))
    decreases |q|
  {
    if q != [] {
      FollowLookup(levels, levels[i].dirs[q[0]], q[1..], c);
    }
  }

  lemma {:induction false} FollowExtend(levels: seq<Level>, i: nat, q: seq<string>, c: nat, k: string)
    requires Linked(levels) && i < |levels|
    requires Follow(levels, i, q) == Some(c) && k in levels[c].dirs
    ensures Follow(levels, i, q + [k]) == Some(levels[c].dirs[k])
    decreases |q|
  {
    if q == [] {
      assert [k][1..] == [];
    } else {
      assert (q + [k])[1..] == q[1..] + [k];
      FollowExtend(levels, levels[i].dirs[q[0]], q[1..], c, k);
    }
  }

  lemma {:induction false} FollowPath(levels: seq<Level>, paths: seq<seq<string>>, i: nat, q: seq<string>, c: nat)
    requires Labelled(levels, paths) && i < |levels|
    requires Follow(levels, i, q) == Some(c)
    ensures paths[c] == paths[i] + q
    decreases |q|
  {
    if q != [] {
      var ch := levels[i].dirs[q[0]];
      FollowPath(levels, paths, ch, q[1..], c);
      assert [q[0]] + q[1..] == q;
    }
  }

  lemma {:induction false} FollowKept(levels: seq<Level>, paths: seq<seq<string>>,
                                      levels': seq<Level>, paths': seq<seq<string>>,
                                      c: nat, i: nat, q: seq<string>)
    requires ChangedOnly(levels, paths, levels', paths', c) && i < |levels|
    requires Follow(levels, i, q) == Some(c)
    ensures Follow(levels', i, q) == Some(c)
    decreases |q|
  {
    if q != [] {
      FollowPath(levels, paths, i, q, c);
      assert i != c;
      FollowKept(levels, paths, levels', paths', c, levels[i].dirs[q[0]], q[1..]);
    }
  }

  /** Objects whose path does not lead to the changed object hold the same tree. */
  lemma {:induction false} ReifyFrame(levels: seq<Level>, paths: seq<seq<string>>,
                                      levels': seq<Level>, paths': seq<seq<string>>,
                                      c: nat, i: nat)
    requires ChangedOnly(levels, paths, levels', paths', c) && i < |levels|
    requires !IsPrefix(paths[i], paths[c])
    ensures Reify(levels', i) == Reify(levels, i)
    decreases |levels| - i
  {
    assert i != c;
    var ds := levels[i].dirs;
    forall k | k in ds
      ensures Reify(levels', ds[k]) == Reify(levels, ds[k])
    {
      var ch := ds[k];
      assert paths[ch] == paths[i] + [k];
      ReifyFrame(levels, paths, levels', paths', c, ch);
    }
    assert Reify(levels', i).dirs == Reify(levels, i).dirs;
  }

  /** The children of the changed object that it still references are unchanged. */
  lemma ReifyChildrenKept(levels: seq<Level>, paths: seq<seq<string>>,
                          levels': seq<Level>, paths': seq<seq<string>>, c: nat, k: string)
    requires ChangedOnly(levels, paths, levels', paths', c)
    requires k in levels[c].dirs && k in levels'[c].dirs && levels'[c].dirs[k] == levels[c].dirs[k]
    ensures Reify(levels', levels[c].dirs[k]) == Reify(levels, levels[c].dirs[k])
  {
    var ch := levels[c].dirs[k];
    assert paths[ch] == paths[c] + [k];
    ReifyFrame(levels, paths, levels', paths', c, ch);
  }

  /** Changing the object reached by `q` replaces the node at `q`. */
  lemma {:induction false} ReifyOnPath(levels: seq<Level>, paths: seq<seq<string>>,
                                       levels': seq<Level>, paths': seq<seq<string>>,
                                       c: nat, i: nat, q: seq<string>)
    requires ChangedOnly(levels, paths, levels', paths', c) && i < |levels|
    requires Follow(levels, i, q) == Some(c)
    ensures Reify(levels', i) == Replace(Reify(levels, i), q, Reify(levels', c))
    decreases |q|
  {
    if q != [] {
      FollowPath(levels, paths, i, q, c);
      assert |paths[c]| > |paths[i]|;
      var ds := levels[i].dirs;
      var ch := ds[q[0]];
      ReifyOnPath(levels, paths, levels', paths', c, ch, q[1..]);
      forall k | k in ds && k != q[0]
        ensures SameTree(levels, levels', ds[k])
      {
        SiblingKept(levels, paths, levels', paths', c, i, q, k);
      }
      ReifyOneChild(levels, levels', i, q[0]);
    }
  }

  /** A child of an object on the path to the changed object, off that
      path, holds the same tree. */
  lemma SiblingKept(levels: seq<Level>, paths: seq<seq<string>>,
                    levels': seq<Level>, paths': seq<seq<string>>,
                    c: nat, i: nat, q: seq<string>, k: string)
    requires ChangedOnly(levels, paths, levels', paths', c) && i < |levels|
    requires Follow(levels, i, q) == Some(c) && q != []
    requires k in levels[i].dirs && k != q[0]
    ensures Reify(levels', levels[i].dirs[k]) == Reify(levels, levels[i].dirs[k])
  {
    var other := levels[i].dirs[k];
    FollowPath(levels, paths, i, q, c);
    assert paths[other] == paths[i] + [k];
    assert paths[other][|paths[i]|] == k != q[0] == paths[c][|paths[i]|];
    ReifyFrame(levels, paths, levels', paths', c, other);
  }

  /** Object `j` holds the same tree in both stores. */
  ghost predicate SameTree(levels: seq<Level>, levels': seq<Level>, j: nat)
  {
    && Linked(levels) && Linked(levels') && j < |levels| && j < |levels'|
    && Reify(levels', j) == Reify(levels, j)
  }

  /** An unchanged object whose children other than `k0` hold the same trees
      holds its old tree with the child `k0` replaced. */
  lemma ReifyOneChild(levels: seq<Level>, levels': seq<Level>, i: nat, k0: string)
    requires Linked(levels) && Linked(levels') && i < |levels| <= |levels'|
    requires levels'[i] == levels[i] && k0 in levels[i].dirs
    requires forall k :: k in levels[i].dirs && k != k0 ==> SameTree(levels, levels', levels[i].dirs[k])
    ensures Reify(levels', i) ==
            Reify(levels, i).(dirs := Reify(levels, i).dirs[k0 := Reify(levels', levels[i].dirs[k0])])
  {
    var ds := levels[i].dirs;
    var m' := Reify(levels', i).dirs;
    var m := Reify(levels, i).dirs[k0 := Reify(levels', ds[k0])];
    forall k | k in ds
      ensures m'[k] == m[k]
    {
      if k != k0 {
        assert SameTree(levels, levels', ds[k]);
      }
    }
    assert m' == m;
  }

  /** Pushing the file onto the object reached by its directory segments
      completes the insertion. */
  lemma PushFileStep(levels: seq<Level>, paths: seq<seq<string>>, cur: nat,
                     before: Node, dir: seq<string>, file: FileEntry)
    requires Labelled(levels, paths) && cur < |levels|
    requires Follow(levels, 0, dir) == Some(cur)
    requires Reify(levels, 0) == Ensure(before, dir)
    ensures Labelled(WithFile(levels, cur, file), paths)
    ensures Reify(WithFile(levels, cur, file), 0) == Insert(before, dir, file)
  {
    var levels' := WithFile(levels, cur, file);
    ReifyWithFile(levels, paths, cur, file);
    FollowLookup(levels, 0, dir, cur);
    ReifyOnPath(levels, paths, levels', paths, cur, 0, dir);
    InsertAsEnsure(before, dir, file);
  }

  /** The store after `currentLevel.files.push(file)` on object `cur`. */
  function WithFile(levels: seq<Level>, cur: nat, file: FileEntry): (levels': seq<Level>)
    requires cur < |levels|
    ensures |levels'| == |levels|
  {
    levels[cur := levels[cur].(files := levels[cur].files + [file])]
  }

  /** The changed object holds its old tree with the file appended. */
  lemma ReifyWithFile(levels: seq<Level>, paths: seq<seq<string>>, cur: nat, file: FileEntry)
    requires Labelled(levels, paths) && cur < |levels|
    ensures ChangedOnly(levels, paths, WithFile(levels, cur, file), paths, cur)
    ensures Reify(WithFile(levels, cur, file), cur) ==
            Reify(levels, cur).(files := Reify(levels, cur).files + [file])
  {
    var levels' := WithFile(levels, cur, file);
    assert ChangedOnly(levels, paths, levels', paths, cur);
    forall k | k in levels[cur].dirs
      ensures Reify(levels', levels[cur].dirs[k]) == Reify(levels, levels[cur].dirs[k])
    {
      ReifyChildrenKept(levels, paths, levels', paths, cur, k);
    }
    assert Reify(levels', cur).dirs == Reify(levels, cur).dirs;
  }

  /** The store after `currentLevel.dirs[part] = {}`: a fresh empty object
      appended and linked from object `cur` under `part`. */
  function WithDir(levels: seq<Level>, cur: nat, part: string): (levels': seq<Level>)
    requires cur < |levels|
    ensures |levels'| == |levels| + 1
    ensures part in levels'[cur].dirs && levels'[cur].dirs[part] == |levels|
  {
    (levels + [Level(map[], [])])[cur := levels[cur].(dirs := levels[cur].dirs[part := |levels|])]
  }

  lemma WithDirLabelled(levels: seq<Level>, paths: seq<seq<string>>, cur: nat, part: string)
    requires Labelled(levels, paths) && cur < |levels|
    requires part !in levels[cur].dirs
    ensures ChangedOnly(levels, paths, WithDir(levels, cur, part), paths + [paths[cur] + [part]], cur)
  {
    var levels' := WithDir(levels, cur, part);
    var paths' := paths + [paths[cur] + [part]];
    forall i, k | 0 <= i < |levels'| && k in levels'[i].dirs
      ensures i < levels'[i].dirs[k] < |levels'|
      ensures paths'[levels'[i].dirs[k]] == paths'[i] + [k]
    {
      if i != cur || k != part {
        assert i < |levels|;
        assert k in levels[i].dirs && levels'[i].dirs[k] == levels[i].dirs[k];
      }
    }
  }

  /** Creating a missing directory object under the current one and linking
      it under `part` creates the directory in the tree. */
  lemma NewDirStep(levels: seq<Level>, paths: seq<seq<string>>, cur: nat,
                   before: Node, here: seq<string>, part: string)
    requires Labelled(levels, paths) && cur < |levels|
    requires Follow(levels, 0, here) == Some(cur)
    requires Reify(levels, 0) == Ensure(before, here)
    requires part !in levels[cur].dirs
    ensures Labelled(WithDir(levels, cur, part), paths + [paths[cur] + [part]])
    ensures Follow(WithDir(levels, cur, part), 0, here + [part]) == Some(|levels|)
    ensures Reify(WithDir(levels, cur, part), 0) == Ensure(before, here + [part])
  {
    var created := |levels|;
    var levels' := WithDir(levels, cur, part);
    var paths' := paths + [paths[cur] + [part]];
    WithDirLabelled(levels, paths, cur, part);
    FollowLookup(levels, 0, here, cur);
    EnsureStep(before, here, part);
    ReifyOnPath(levels, paths, levels', paths', cur, 0, here);
    FollowKept(levels, paths, levels', paths', cur, 0, here);
    FollowExtend(levels', 0, here, cur, part);
    ReifyWithDir(levels, paths, cur, part);
  }

  /** The changed object holds its old tree with an empty directory added. */
  lemma ReifyWithDir(levels: seq<Level>, paths: seq<seq<string>>, cur: nat, part: string)
    requires Labelled(levels, paths) && cur < |levels|
    requires part !in levels[cur].dirs
    ensures Linked(WithDir(levels, cur, part))
    ensures Reify(WithDir(levels, cur, part), cur) == AddDir(Reify(levels, cur), part)
  {
    var levels' := WithDir(levels, cur, part);
    var paths' := paths + [paths[cur] + [part]];
    WithDirLabelled(levels, paths, cur, part);
    var ds := levels[cur].dirs;
    forall k | k in ds
      ensures Reify(levels', ds[k]) == Reify(levels, ds[k])
    {
      ReifyChildrenKept(levels, paths, levels', paths', cur, k);
    }
    assert Reify(levels', |levels|) == Empty;
    var m' := Reify(levels', cur).dirs;
    var m := Reify(levels, cur).dirs[part := Empty];
    assert m'.Keys == ds.Keys + {part} == m.Keys;
    forall k | k in m'.Keys
      ensures m'[k] == m[k]
    {
      assert m'[k] == Reify(levels', levels'[cur].dirs[k]);
    }
    assert m' == m;
  }

  /** Stepping into an existing directory object changes nothing. */
  lemma OldDirStep(levels: seq<Level>, cur: nat, before: Node, here: seq<string>, part: string)
    requires Linked(levels) && cur < |levels|
    requires Follow(levels, 0, here) == Some(cur)
    requires Reify(levels, 0) == Ensure(before, here)
    requires part in levels[cur].dirs
    ensures Follow(levels, 0, here + [part]) == Some(levels[cur].dirs[part])
    ensures Reify(levels, 0) == Ensure(before, here + [part])
  {
    FollowLookup(levels, 0, here, cur);
    EnsureStep(before, here, part);
    assert AddDir(Reify(levels, cur), part) == Reify(levels, cur);
    ReplaceLookup(Reify(levels, 0), here);
    FollowExtend(levels, 0, here, cur, part);
  }

  /** The callback `buildFileTree` runs for one file: split its name, walk
      `cur` down from the root through the directory segments, creating each
      missing directory object, and push the file onto the object reached. */
  method AddFile(levels: seq<Level>, ghost paths: seq<seq<string>>, file: FileEntry)
    returns (levels': seq<Level>, ghost paths': seq<seq<string>>)
    requires Labelled(levels, paths)
    ensures Labelled(levels', paths')
    ensures Reify(levels', 0) == Insert(Reify(levels, 0), DirOf(file), file)
  {
    levels', paths' := levels, paths;
    var pathParts := Split(file.metadata.name, '/');
    ghost var before := Reify(levels, 0);
    var cur := 0;
    for index := 0 to |pathParts|
      invariant Labelled(levels', paths') && cur < |levels'|
      invariant index < |pathParts| ==>
        && Follow(levels', 0, pathParts[..index]) == Some(cur)
        && Reify(levels', 0) == Ensure(before, pathParts[..index])
      invariant index == |pathParts| ==> Reify(levels', 0) == Insert(before, DirOf(file), file)
    {
      var part := pathParts[index];
      if index == |pathParts| - 1 {
        // the last segment names the file: push it onto the current level
        PushFileStep(levels', paths', cur, before, pathParts[..index], file);
        levels' := WithFile(levels', cur, file);
      } else {
        assert pathParts[..index + 1] == pathParts[..index] + [part];
        levels', paths', cur := EnterDir(levels', paths', cur, part, before, pathParts[..index]);
      }
    }
  }

  /** A directory segment: create the directory object under the current
      one when it is missing, then step into it. */
  method EnterDir(levels: seq<Level>, ghost paths: seq<seq<string>>, cur: nat, part: string,
                  ghost before: Node, ghost here: seq<string>)
    returns (levels': seq<Level>, ghost paths': seq<seq<string>>, cur': nat)
    requires Labelled(levels, paths) && cur < |levels|
    requires Follow(levels, 0, here) == Some(cur)
    requires Reify(levels, 0) == Ensure(before, here)
    ensures Labelled(levels', paths') && cur' < |levels'|
    ensures Follow(levels', 0, here + [part]) == Some(cur')
    ensures Reify(levels', 0) == Ensure(before, here + [part])
  {
    levels', paths' := levels, paths;
    if part !in levels'[cur].dirs {
      NewDirStep(levels, paths, cur, before, here, part);
      paths' := paths + [paths[cur] + [part]];
      levels' := WithDir(levels, cur, part);
    } else {
      OldDirStep(levels, cur, before, here, part);
    }
    cur' := levels'[cur].dirs[part];
  }

  /** `buildFileTree`: starting from an empty root object, run the per-file
      walk for each file in list order. */
  method BuildFileTree(files: seq<FileEntry>) returns (tree: Node)
    ensures tree == Build(files)
  {
    var levels: seq<Level> := [Level(map[], [])];
    ghost var paths: seq<seq<string>> := [[]];
    for n := 0 to |files|
      invariant Labelled(levels, paths)
      invariant Reify(levels, 0) == Build(files[..n])
    {
      levels, paths := AddFile(levels, paths, files[n]);
      assert files[..n + 1][..n] == files[..n];
    }
    tree := Reify(levels, 0);
    assert files[..|files|] == files;
  }

  lemma {:induction false} ReplaceLookup(t: Node, p: seq<string>)
    requires Lookup(t, p).Some?
    ensures Replace(t, p, Lookup(t, p).value) == t
    decreases |p|
  {
    if p != [] {
      ReplaceLookup(t.dirs[p[0]], p[1..]);
      assert t.dirs[p[0] := t.dirs[p[0]]] == t.dirs;
    }
  }

  // ---------------------------------------------------------------------
  // The walk as written looks a segment up with `!currentLevel.dirs[part]`,
  // which also sees the properties every object inherits. A segment named
  // like one of them finds that inherited value instead of creating a
  // directory, and the walk continues on an object outside the tree.

  /** Names every plain object inherits from `Object.prototype` whose value is
      truthy (`__proto__` is left out: stepping into it rewrites the prototype). */
  const InheritedNames: set<string> :=
    {"constructor", "hasOwnProperty", "isPrototypeOf", "propertyIsEnumerable",
     "toLocaleString", "toString", "valueOf", "__defineGetter__",
     "__defineSetter__", "__lookupGetter__", "__lookupSetter__"}

  /** Insert as written: an inherited name leaves the tree untouched, since
      the file is stored on the inherited built-in object instead. */
  function InsertAsWritten(t: Node, dir: seq<string>, f: FileEntry): Node
    decreases |dir|
  {
    if dir == [] then t.(files := t.files + [f])
    else if dir[0] !in t.dirs && dir[0] in InheritedNames then t
    else
      var k := dir[0];
      var child := if k in t.dirs then t.dirs[k] else Empty;
      t.(dirs := t.dirs[k := InsertAsWritten(child, dir[1..], f)])
  }

  function BuildAsWritten(fs: seq<FileEntry>): Node
  {
    if fs == [] then Empty
    else
      var last := fs[|fs| - 1];
      InsertAsWritten(BuildAsWritten(fs[..|fs| - 1]), DirOf(last), last)
  }

  /** No segment of `dir` names an inherited property. */
  predicate OwnNamesOnly(dir: seq<string>)
  {
    forall i :: 0 <= i < |dir| ==> dir[i] !in InheritedNames
  }

  /** Away from inherited names, the walk as written inserts a file exactly
      as the intended walk does. */
  lemma {:induction false} InsertAsWrittenAgrees(t: Node, dir: seq<string>, f: FileEntry)
    requires OwnNamesOnly(dir)
    ensures InsertAsWritten(t, dir, f) == Insert(t, dir, f)
    decreases |dir|
  {
    if dir != [] {
      var child := if dir[0] in t.dirs then t.dirs[dir[0]] else Empty;
      assert OwnNamesOnly(dir[1..]) by {
        forall i | 0 <= i < |dir| - 1 ensures dir[1..][i] !in InheritedNames {
          assert dir[1..][i] == dir[i + 1];
        }
      }
      InsertAsWrittenAgrees(child, dir[1..], f);
    }
  }

  /** When no file has a directory segment named like an inherited property,
      `buildFileTree` as written returns the intended tree, so every property
      proved of `Build` holds of it. */
  lemma {:induction false} BuildAsWrittenAgrees(fs: seq<FileEntry>)
    requires forall i :: 0 <= i < |fs| ==> OwnNamesOnly(DirOf(fs[i]))
    ensures BuildAsWritten(fs) == Build(fs)
    decreases |fs|
  {
    if fs != [] {
      var init, last := fs[..|fs| - 1], fs[|fs| - 1];
      assert forall i :: 0 <= i < |init| ==> init[i] == fs[i];
      BuildAsWrittenAgrees(init);
      InsertAsWrittenAgrees(Build(init), DirOf(last), last);
    }
  }

  /** A file under a directory called "constructor" vanishes from the tree
      as written, while the intended tree lists it under that directory. */
  lemma ConstructorDirectoryLosesFile()
    ensures var f := FileEntry(1, Metadata("constructor/notes.txt", "text/plain"));
            && BuildAsWritten([f]) == Empty
            && Count(BuildAsWritten([f])) == 0
            && FilesAt(Build([f]), ["constructor"]) == [f]
            && Count(Build([f])) == 1
  {
    var f := FileEntry(1, Metadata("constructor/notes.txt", "text/plain"));
    SplitJoin(["constructor", "notes.txt"], '/');
    assert Join(["constructor", "notes.txt"], '/') == "constructor/notes.txt";
    assert DirOf(f) == ["constructor"];
    assert [f][..0] == [];
    assert Count(Empty) == 0;
    BuildFilesAt([f], ["constructor"]);
    BuildCount([f]);
  }
}
