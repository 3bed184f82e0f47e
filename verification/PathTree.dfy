/**
 The directory tree that the cache listing prints: every node carries the total size and number of the
 entries below it.
 */
module PathTree {
  import opened Common

  datatype Tree = Tree(name: string, isDir: bool, size: nat, fileCount: nat, children: map<string, Tree>)

  datatype Entry = Entry(comps: seq<string>, size: nat)

  function NewTree(name: string, isDir: bool): Tree {
    Tree(name, isDir, 0, 0, map[])
  }

  // ---- inserting --------------------------------------------------------------------------------

  function ChildOr(t: Tree, name: string, isDir: bool): Tree {
    if name in t.children then t.children[name] else NewTree(name, isDir)
  }

  function WithChild(t: Tree, name: string, child: Tree): Tree {
    t.(children := t.children[name := child])
  }

  function Counted(t: Tree, size: nat): Tree {
    t.(size := t.size + size, fileCount := t.fileCount + 1)
  }

  /** Each step down marks the child as a directory, the last one as a file. */
  function Inserted(t: Tree, comps: seq<string>, size: nat): Tree
    decreases |comps|
  {
    if comps == [] then Counted(t, size)
    else
      var first, rest := comps[0], comps[1..];
      var child := Inserted(ChildOr(t, first, rest != []).(isDir := rest != []), rest, size);
      Counted(WithChild(t, first, child), size)
  }

  function InsertedAll(t: Tree, entries: seq<Entry>): Tree
    decreases |entries|
  {
    if entries == [] then t
    else InsertedAll(Inserted(t, entries[0].comps, entries[0].size), entries[1..])
  }

  function At(t: Tree, p: seq<string>): Option<Tree>
    decreases |p|
  {
    if p == [] then Some(t)
    else if p[0] in t.children then At(t.children[p[0]], p[1..])
    else None
  }

  // ---- totals -----------------------------------------------------------------------------------

  function SizeAt(t: Tree, p: seq<string>): nat {
    if At(t, p).Some? then At(t, p).value.size else 0
  }

  function CountAt(t: Tree, p: seq<string>): nat {
    if At(t, p).Some? then At(t, p).value.fileCount else 0
  }

  /** The sizes of the entries at or below `p`. */
  function SumBelow(entries: seq<Entry>, p: seq<string>): nat {
    if entries == [] then 0
    else (if p <= entries[0].comps then entries[0].size else 0) + SumBelow(entries[1..], p)
  }

  function CountBelow(entries: seq<Entry>, p: seq<string>): nat {
    if entries == [] then 0
    else (if p <= entries[0].comps then 1 else 0) + CountBelow(entries[1..], p)
  }

  lemma PrefixTail(p: seq<string>, comps: seq<string>)
    requires p != [] && comps != []
    ensures p <= comps <==> p[0] == comps[0] && p[1..] <= comps[1..]
  {
  }

  lemma ChildAgrees(t: Tree, isDir: bool, mark: bool, p: seq<string>)
    requires p != []
    ensures var child := ChildOr(t, p[0], isDir).(isDir := mark);
      && SizeAt(child, p[1..]) == SizeAt(t, p) && CountAt(child, p[1..]) == CountAt(t, p)
      && (p[1..] != [] ==> (At(child, p[1..]).Some? <==> At(t, p).Some?) && DirAt(child, p[1..]) == DirAt(t, p))
  {
    var child := ChildOr(t, p[0], isDir).(isDir := mark);
    assert p[1..] != [] && p[0] in t.children ==> At(child, p[1..]) == At(t.children[p[0]], p[1..]);
    assert p[0] !in t.children ==> child.children == map[];
    if p[1..] == [] {
      assert At(child, p[1..]) == Some(child);
      assert p[0] in t.children ==> At(t, p) == Some(t.children[p[0]]);
    }
  }

  lemma {:induction false} OneInsertion(t: Tree, comps: seq<string>, size: nat, p: seq<string>)
    ensures var t1 := Inserted(t, comps, size);
      && (At(t1, p).Some? <==> At(t, p).Some? || p <= comps)
      && SizeAt(t1, p) == SizeAt(t, p) + (if p <= comps then size else 0)
      && CountAt(t1, p) == CountAt(t, p) + (if p <= comps then 1 else 0)
    decreases |p|
  {
    if p != [] && comps != [] {
      PrefixTail(p, comps);
      if p[0] == comps[0] {
        var rest := comps[1..];
        var child := ChildOr(t, comps[0], rest != []).(isDir := rest != []);
        OneInsertion(child, rest, size, p[1..]);
        ChildAgrees(t, rest != [], rest != [], p);
      }
    }
  }

  lemma {:induction false} ManyInsertions(t: Tree, entries: seq<Entry>, p: seq<string>)
    ensures var t1 := InsertedAll(t, entries);
      && (At(t1, p).Some? <==> At(t, p).Some? || CountBelow(entries, p) > 0)
      && SizeAt(t1, p) == SizeAt(t, p) + SumBelow(entries, p)
      && CountAt(t1, p) == CountAt(t, p) + CountBelow(entries, p)
    decreases |entries|
  {
    if entries != [] {
      OneInsertion(t, entries[0].comps, entries[0].size, p);
      ManyInsertions(Inserted(t, entries[0].comps, entries[0].size), entries[1..], p);
    }
  }

  /** A node exists exactly at the root and above every inserted entry, with the totals of what is below it. */
  lemma TotalsAreSums(name: string, entries: seq<Entry>, p: seq<string>)
    ensures var t := InsertedAll(NewTree(name, true), entries);
      && (At(t, p).Some? <==> p == [] || exists i :: 0 <= i < |entries| && p <= entries[i].comps)
      && SizeAt(t, p) == SumBelow(entries, p) && CountAt(t, p) == CountBelow(entries, p)
  {
    ManyInsertions(NewTree(name, true), entries, p);
    CountsSomeIff(entries, p);
  }

  lemma {:induction false} CountsSomeIff(entries: seq<Entry>, p: seq<string>)
    ensures CountBelow(entries, p) > 0 <==> exists i :: 0 <= i < |entries| && p <= entries[i].comps
    decreases |entries|
  {
    if entries != [] {
      CountsSomeIff(entries[1..], p);
      if i :| 0 <= i < |entries| && p <= entries[i].comps {
        assert i > 0 ==> entries[i] == entries[1..][i - 1];
      }
      if CountBelow(entries[1..], p) > 0 {
        var i :| 0 <= i < |entries[1..]| && p <= entries[1..][i].comps;
        assert entries[i + 1] == entries[1..][i];
      }
    }
  }

  // ---- order of insertion -----------------------------------------------------------------------

  lemma {:induction false} SumsWithout(entries: seq<Entry>, i: nat, p: seq<string>)
    requires i < |entries|
    ensures var rest := entries[..i] + entries[i + 1..];
      && SumBelow(entries, p) == SumBelow([entries[i]] + rest, p)
      && CountBelow(entries, p) == CountBelow([entries[i]] + rest, p)
    decreases i
  {
    var rest := entries[..i] + entries[i + 1..];
    assert ([entries[i]] + rest)[1..] == rest;
    if i == 0 {
      assert [entries[i]] + rest == entries;
    } else {
      SumsWithout(entries[1..], i - 1, p);
      assert entries[1..][..i - 1] + entries[1..][i..] == rest[1..];
      assert ([entries[i]] + rest[1..])[1..] == rest[1..];
    }
  }

  lemma RemoveFromBoth(entries: seq<Entry>, others: seq<Entry>, i: nat)
    requires entries != [] && i < |others| && others[i] == entries[0] && multiset(entries) == multiset(others)
    ensures multiset(entries[1..]) == multiset(others[..i] + others[i + 1..])
  {
    assert entries == [entries[0]] + entries[1..];
    assert others == others[..i] + [others[i]] + others[i + 1..];
    var rest := others[..i] + others[i + 1..];
    assert multiset(entries) == multiset{entries[0]} + multiset(entries[1..]);
    assert multiset(others) == multiset{others[i]} + multiset(rest);
    assert multiset(entries[1..]) == multiset(entries) - multiset{entries[0]};
    assert multiset(rest) == multiset(others) - multiset{others[i]};
  }

  lemma {:induction false} SumsOfPermutation(entries: seq<Entry>, others: seq<Entry>, p: seq<string>)
    requires multiset(entries) == multiset(others)
    ensures SumBelow(entries, p) == SumBelow(others, p) && CountBelow(entries, p) == CountBelow(others, p)
    decreases |entries|
  {
    if entries == [] {
      assert |multiset(others)| == 0;
    } else {
      assert entries[0] in multiset(others);
      var i :| 0 <= i < |others| && others[i] == entries[0];
      SumsWithout(others, i, p);
      var rest := others[..i] + others[i + 1..];
      RemoveFromBoth(entries, others, i);
      SumsOfPermutation(entries[1..], rest, p);
      assert ([others[i]] + rest)[1..] == rest;
    }
  }

  /** The totals do not depend on the order of insertion, nor does the set of nodes. */
  lemma OrderDoesNotMatter(name: string, entries: seq<Entry>, others: seq<Entry>, p: seq<string>)
    requires multiset(entries) == multiset(others)
    ensures var t, u := InsertedAll(NewTree(name, true), entries), InsertedAll(NewTree(name, true), others);
      && (At(t, p).Some? <==> At(u, p).Some?)
      && SizeAt(t, p) == SizeAt(u, p) && CountAt(t, p) == CountAt(u, p)
  {
    ManyInsertions(NewTree(name, true), entries, p);
    ManyInsertions(NewTree(name, true), others, p);
    SumsOfPermutation(entries, others, p);
  }

  // ---- directory or file ------------------------------------------------------------------------

  function DirAt(t: Tree, p: seq<string>): bool {
    At(t, p).Some? && At(t, p).value.isDir
  }

  /** Whether the last entry at or below `p` lies below it; `before` if there is none. */
  function LastIsBelow(entries: seq<Entry>, p: seq<string>, before: bool): bool
    decreases |entries|
  {
    if entries == [] then before
    else LastIsBelow(entries[1..], p, if p <= entries[0].comps then p != entries[0].comps else before)
  }

  lemma {:induction false} OneInsertionMarks(t: Tree, comps: seq<string>, size: nat, p: seq<string>)
    requires p != []
    ensures DirAt(Inserted(t, comps, size), p) == (if p <= comps then p != comps else DirAt(t, p))
    decreases |p|
  {
    if comps != [] {
      PrefixTail(p, comps);
      if p[0] == comps[0] {
        var rest := comps[1..];
        var child := ChildOr(t, comps[0], rest != []).(isDir := rest != []);
        assert p == [p[0]] + p[1..] && comps == [comps[0]] + rest;
        ChildAgrees(t, rest != [], rest != [], p);
        if p[1..] == [] {
          assert At(Inserted(t, comps, size), p) == Some(Inserted(child, rest, size));
        } else {
          OneInsertionMarks(child, rest, size, p[1..]);
        }
      }
    }
  }

  lemma {:induction false} LastInsertionMarks(t: Tree, entries: seq<Entry>, p: seq<string>)
    requires p != []
    ensures DirAt(InsertedAll(t, entries), p) == LastIsBelow(entries, p, DirAt(t, p))
    decreases |entries|
  {
    if entries != [] {
      OneInsertionMarks(t, entries[0].comps, entries[0].size, p);
      LastInsertionMarks(Inserted(t, entries[0].comps, entries[0].size), entries[1..], p);
    }
  }

  /** `p` was inserted as a file and also has entries below it. */
  predicate IsBoth(entries: seq<Entry>, p: seq<string>) {
    && (exists i :: 0 <= i < |entries| && entries[i].comps == p)
    && (exists j :: 0 <= j < |entries| && p <= entries[j].comps && p != entries[j].comps)
  }

  lemma {:induction false} LastDecides(entries: seq<Entry>, e: Entry, p: seq<string>, before: bool)
    requires p <= e.comps
    ensures LastIsBelow(entries + [e], p, before) == (p != e.comps)
    decreases |entries|
  {
    if entries == [] {
      assert (entries + [e])[1..] == [];
    } else {
      assert (entries + [e])[1..] == entries[1..] + [e];
      LastDecides(entries[1..], e, p, if p <= entries[0].comps then p != entries[0].comps else before);
    }
  }

  lemma {:induction false} AllOfOneKind(entries: seq<Entry>, p: seq<string>, below: bool, before: bool)
    requires forall i :: 0 <= i < |entries| && p <= entries[i].comps ==> (p != entries[i].comps) == below
    ensures LastIsBelow(entries, p, before) == if CountBelow(entries, p) > 0 then below else before
    decreases |entries|
  {
    if entries != [] {
      var now := if p <= entries[0].comps then below else before;
      assert forall i :: 0 <= i < |entries[1..]| ==> entries[1..][i] == entries[i + 1];
      AllOfOneKind(entries[1..], p, below, now);
    }
  }

  lemma MovedLast(entries: seq<Entry>, i: nat) returns (others: seq<Entry>)
    requires i < |entries|
    ensures multiset(others + [entries[i]]) == multiset(entries)
  {
    others := entries[..i] + entries[i + 1..];
    assert entries == entries[..i] + [entries[i]] + entries[i + 1..];
  }

  /** The directory mark is independent of the order exactly if `p` is not both a file and a directory. */
  lemma DirMarkIsStableIff(name: string, entries: seq<Entry>, p: seq<string>)
    requires p != []
    ensures (forall others: seq<Entry> :: multiset(others) == multiset(entries) ==>
               DirAt(InsertedAll(NewTree(name, true), others), p) == DirAt(InsertedAll(NewTree(name, true), entries), p))
      <==> !IsBoth(entries, p)
  {
    var t := NewTree(name, true);
    if IsBoth(entries, p) {
      var i :| 0 <= i < |entries| && entries[i].comps == p;
      var j :| 0 <= j < |entries| && p <= entries[j].comps && p != entries[j].comps;
      var fileLast := MovedLast(entries, i);
      var dirLast := MovedLast(entries, j);
      LastInsertionMarks(t, fileLast + [entries[i]], p);
      LastInsertionMarks(t, dirLast + [entries[j]], p);
      LastDecides(fileLast, entries[i], p, false);
      LastDecides(dirLast, entries[j], p, false);
    } else {
      var below := !exists i :: 0 <= i < |entries| && entries[i].comps == p;
      forall others: seq<Entry> | multiset(others) == multiset(entries)
        ensures DirAt(InsertedAll(t, others), p) == DirAt(InsertedAll(t, entries), p)
      {
        forall i | 0 <= i < |others| && p <= others[i].comps
          ensures (p != others[i].comps) == below
        {
          assert others[i] in multiset(entries);
          assert others[i] in entries;
        }
        LastInsertionMarks(t, others, p);
        LastInsertionMarks(t, entries, p);
        AllOfOneKind(others, p, below, false);
        AllOfOneKind(entries, p, below, false);
        SumsOfPermutation(others, entries, p);
      }
    }
  }

  // ---- names ----------------------------------------------------------------------------------

  /** Below `t`, every node carries the last component of its path. */
  ghost predicate WellNamed(t: Tree) {
    forall p :: p != [] && At(t, p).Some? ==> At(t, p).value.name == p[|p| - 1]
  }

  lemma ChildrenAreNamed(t: Tree, name: string)
    requires WellNamed(t)
    ensures name in t.children ==> t.children[name].name == name && WellNamed(t.children[name])
  {
    if name in t.children {
      assert At(t, [name]) == Some(t.children[name]);
      forall p | p != [] && At(t.children[name], p).Some?
        ensures At(t.children[name], p).value.name == p[|p| - 1]
      {
        assert ([name] + p)[1..] == p;
        assert At(t, [name] + p) == At(t.children[name], p);
      }
    }
  }

  lemma NewTreeIsNamed(name: string, isDir: bool)
    ensures WellNamed(NewTree(name, isDir))
  {
  }

  lemma CountingKeepsNames(t: Tree, size: nat)
    requires WellNamed(t)
    ensures WellNamed(Counted(t, size))
  {
    forall p | p != []
      ensures At(Counted(t, size), p) == At(t, p)
    {
    }
  }

  lemma ChildKeepsNames(t: Tree, name: string, child: Tree)
    requires WellNamed(t) && WellNamed(child) && child.name == name
    ensures WellNamed(WithChild(t, name, child))
  {
    var t1 := WithChild(t, name, child);
    forall p | p != [] && At(t1, p).Some?
      ensures At(t1, p).value.name == p[|p| - 1]
    {
      if p[0] != name {
        assert At(t1, p) == At(t, p);
      } else if p[1..] != [] {
        assert p[|p| - 1] == p[1..][|p| - 2];
      }
    }
  }

  /** A node keeps its name, and so do all below it. */
  lemma {:induction false} InsertionKeepsNames(t: Tree, comps: seq<string>, size: nat)
    requires WellNamed(t)
    ensures WellNamed(Inserted(t, comps, size)) && Inserted(t, comps, size).name == t.name
    decreases |comps|
  {
    if comps == [] {
      CountingKeepsNames(t, size);
    } else {
      var first, rest := comps[0], comps[1..];
      var child := ChildOr(t, first, rest != []);
      ChildrenAreNamed(t, first);
      NewTreeIsNamed(first, rest != []);
      MarkKeepsNames(child, rest != []);
      InsertionKeepsNames(child.(isDir := rest != []), rest, size);
      var grown := Inserted(child.(isDir := rest != []), rest, size);
      ChildKeepsNames(t, first, grown);
      CountingKeepsNames(WithChild(t, first, grown), size);
    }
  }

  lemma MarkKeepsNames(t: Tree, dir: bool)
    requires WellNamed(t)
    ensures WellNamed(t.(isDir := dir))
  {
    forall p | p != []
      ensures At(t.(isDir := dir), p) == At(t, p)
    {
    }
  }

  /** The node found at a path is called by its last component. */
  lemma {:induction false} NamesFollowPaths(t: Tree, entries: seq<Entry>)
    requires WellNamed(t)
    ensures WellNamed(InsertedAll(t, entries))
    decreases |entries|
  {
    if entries != [] {
      InsertionKeepsNames(t, entries[0].comps, entries[0].size);
      NamesFollowPaths(Inserted(t, entries[0].comps, entries[0].size), entries[1..]);
    }
  }

  // ---- path strings -----------------------------------------------------------------------------

  function NonEmpty(parts: seq<string>): (r: seq<string>)
    ensures forall i :: 0 <= i < |r| ==> r[i] != ""
  {
    if parts == [] then []
    else if parts[0] == "" then NonEmpty(parts[1..])
    else [parts[0]] + NonEmpty(parts[1..])
  }

  function Components(path: string): seq<string> {
    NonEmpty(Split(path, '/'))
  }

  function Joined(comps: seq<string>): string {
    if comps == [] then "" else "/" + comps[0] + Joined(comps[1..])
  }

  /** What one more character in front makes of the pieces. */
  function Prepended(c: char, pieces: seq<string>): seq<string>
    requires pieces != []
  {
    if c == '/' then [""] + pieces else [[c] + pieces[0]] + pieces[1..]
  }

  lemma SplitStep(s: string)
    requires s != ""
    ensures Split(s, '/') == Prepended(s[0], Split(s[1..], '/'))
  {
  }

  lemma PrependedBoth(c: char, a: seq<string>, b: seq<string>)
    requires a != []
    ensures Prepended(c, a + b) == Prepended(c, a) + b
  {
    assert (a + b)[1..] == a[1..] + b;
  }

  lemma {:induction false} SplitBoth(p: string, q: string)
    ensures Split(p + "/" + q, '/') == Split(p, '/') + Split(q, '/')
    decreases |p|
  {
    var s := p + "/" + q;
    SplitStep(s);
    if p == "" {
      assert s[1..] == q;
    } else {
      SplitStep(p);
      SplitBoth(p[1..], q);
      assert s[1..] == p[1..] + "/" + q;
      PrependedBoth(p[0], Split(p[1..], '/'), Split(q, '/'));
    }
  }

  lemma {:induction false} NonEmptyBoth(a: seq<string>, b: seq<string>)
    ensures NonEmpty(a + b) == NonEmpty(a) + NonEmpty(b)
    decreases |a|
  {
    if a == [] {
      assert a + b == b;
    } else {
      NonEmptyBoth(a[1..], b);
      assert (a + b)[1..] == a[1..] + b;
    }
  }

  /** The components are what stands between slashes, without the empty pieces. */
  lemma SlashSeparates(p: string, q: string, word: string)
    requires word != "" && '/' !in word
    ensures Components("") == [] && Components(word) == [word]
    ensures Components(p + "/" + q) == Components(p) + Components(q)
  {
    SplitBoth(p, q);
    NonEmptyBoth(Split(p, '/'), Split(q, '/'));
    assert [word][1..] == [] && NonEmpty([word]) == [word];
  }

  lemma SplitAtSlash(s: string)
    requires s != "" && s[0] == '/'
    ensures Split(s, '/') == [""] + Split(s[1..], '/')
  {
  }

  lemma SlashHead(c: string, rest: string)
    ensures var s := "/" + c + rest; s != "" && s[0] == '/' && s[1..] == c + rest
  {
  }

  lemma JoinedTail(comps: seq<string>)
    requires comps != []
    ensures var s := Joined(comps); s != "" && s[0] == '/' && s[1..] == comps[0] + Joined(comps[1..])
  {
    SlashHead(comps[0], Joined(comps[1..]));
  }

  lemma SplitPiece(s: string, c: string, rest: string, tail: seq<string>)
    requires '/' !in c && (rest == "" || rest[0] == '/') && Split(rest, '/') == [""] + tail
    requires s != "" && s[0] == '/' && s[1..] == c + rest
    ensures Split(s, '/') == [""] + ([c] + tail)
  {
    SplitAtSlash(s);
    SplitHead(c, rest, '/');
    if rest == "" {
      assert [""] + tail == [""] + [];
      SameTail(tail, []);
    } else {
      SplitAtSlash(rest);
      SameTail(Split(rest[1..], '/'), tail);
    }
  }

  lemma {:induction false} SplitJoined(comps: seq<string>)
    requires forall i :: 0 <= i < |comps| ==> '/' !in comps[i]
    ensures Split(Joined(comps), '/') == [""] + comps
    decreases |comps|
  {
    if comps != [] {
      var rest := comps[1..];
      SplitJoined(rest);
      JoinedTail(comps);
      if rest != [] {
        JoinedTail(rest);
      }
      SplitPiece(Joined(comps), comps[0], Joined(rest), rest);
      assert [comps[0]] + rest == comps;
    }
  }

  lemma SameTail(a: seq<string>, b: seq<string>)
    requires [""] + a == [""] + b
    ensures a == b
  {
    assert ([""] + a)[1..] == a && ([""] + b)[1..] == b;
  }

  lemma {:induction false} NonEmptyKeeps(parts: seq<string>)
    requires forall i :: 0 <= i < |parts| ==> parts[i] != ""
    ensures NonEmpty(parts) == parts
    decreases |parts|
  {
    if parts != [] {
      NonEmptyKeeps(parts[1..]);
    }
  }

  /** Joining components into a path and splitting it gives them back. */
  lemma ComponentsOfJoined(comps: seq<string>)
    requires forall i :: 0 <= i < |comps| ==> comps[i] != "" && '/' !in comps[i]
    ensures Components(Joined(comps)) == comps
  {
    SplitJoined(comps);
    NonEmptyKeeps(comps);
    assert ([""] + comps)[1..] == comps;
  }

  // ---- the tree in memory -----------------------------------------------------------------------

  class TreeNode {
    const name: string
    var isDir: bool
    var size: nat
    var fileCount: nat
    var children: map<string, TreeNode>
    ghost var Repr: set<object>

    /** Every node is owned by one parent. */
    ghost predicate Valid()
      reads this, Repr
      decreases Repr
    {
      && this in Repr
      && (forall n :: n in children ==>
            children[n] in Repr && children[n].Repr <= Repr && this !in children[n].Repr && children[n].Valid())
      && (forall m, n :: m in children && n in children && m != n ==> children[m].Repr !! children[n].Repr)
    }

    ghost function View(): Tree
      requires Valid()
      reads this, Repr
      decreases Repr, 1
    {
      Tree(name, isDir, size, fileCount, Below())
    }

    ghost function Below(): map<string, Tree>
      requires Valid()
      reads this, Repr
      decreases Repr, 0
    {
      map n | n in children :: children[n].View()
    }

    constructor (name: string, isDir: bool)
      ensures Valid() && fresh(Repr) && View() == NewTree(name, isDir)
    {
      this.name, this.isDir := name, isDir;
      size, fileCount, children := 0, 0, map[];
      Repr := {this};
    }

    method Count(more: nat)
      requires Valid()
      modifies this`size, this`fileCount
      ensures Valid() && View() == Counted(old(View()), more)
    {
      size := size + more;
      fileCount := fileCount + 1;
    }

    method Mark(dir: bool)
      requires Valid()
      modifies this`isDir
      ensures Valid() && View() == old(View()).(isDir := dir)
    {
      isDir := dir;
    }

    /** The child of that name, made if it is missing. */
    method ChildEntry(first: string, dir: bool) returns (entry: TreeNode)
      requires Valid()
      modifies this`children, this`Repr
      ensures Valid() && fresh(Repr - old(Repr)) && first in children && entry == children[first]
      ensures entry.View() == ChildOr(old(View()), first, dir)
      ensures View() == WithChild(old(View()), first, entry.View())
    {
      if first in children {
        entry := children[first];
        assert View().children == View().children[first := entry.View()];
      } else {
        entry := AddChild(first, dir);
      }
    }

    method AddChild(first: string, dir: bool) returns (entry: TreeNode)
      requires Valid() && first !in children
      modifies this`children, this`Repr
      ensures Valid() && fresh(Repr - old(Repr)) && first in children && entry == children[first]
      ensures entry.View() == NewTree(first, dir)
      ensures View() == WithChild(old(View()), first, NewTree(first, dir))
    {
      ghost var was := children;
      entry := new TreeNode(first, dir);
      children := children[first := entry];
      Repr := Repr + entry.Repr;
      forall n | n in was
        ensures was[n].Kept()
      {
        was[n].Untouched();
      }
      StillValid(first);
      Reassembled(first);
    }

    method Insert(path: string, more: nat)
      requires Valid()
      modifies Repr
      ensures Valid() && fresh(Repr - old(Repr))
      ensures View() == Inserted(old(View()), Components(path), more)
    {
      InsertComps(Components(path), more);
    }

    method InsertComps(comps: seq<string>, more: nat)
      requires Valid()
      modifies Repr
      ensures Valid() && fresh(Repr - old(Repr))
      ensures View() == Inserted(old(View()), comps, more)
      decreases |comps|, 0
    {
      if comps == [] {
        Count(more);
      } else {
        InsertBelow(comps[0], comps[1..], more);
        Count(more);
      }
    }

    /** The part of an insertion that changes the child `first`. */
    method InsertBelow(first: string, rest: seq<string>, more: nat)
      requires Valid()
      modifies Repr
      ensures Valid() && fresh(Repr - old(Repr))
      ensures View() == WithChild(old(View()), first,
        Inserted(ChildOr(old(View()), first, rest != []).(isDir := rest != []), rest, more))
      decreases |rest|, 3
    {
      ghost var t := View();
      var entry := ChildEntry(first, rest != []);
      ghost var before := entry.View();
      ChangeChild(first, rest, more);
      Overwritten(t, first, before, Inserted(before.(isDir := rest != []), rest, more));
    }

    method ChangeChild(first: string, rest: seq<string>, more: nat)
      requires Valid() && first in children
      modifies Repr
      ensures Valid() && fresh(Repr - old(Repr))
      ensures View() == WithChild(old(View()), first, Inserted(old(children[first].View()).(isDir := rest != []), rest, more))
      decreases |rest|, 2
    {
      var entry := children[first];
      entry.InsertHere(rest, more);
      Repr := Repr + entry.Repr;
      ChildChanged(first);
    }

    /** What the parent does to the child it found. */
    method InsertHere(rest: seq<string>, more: nat)
      requires Valid()
      modifies Repr
      ensures Valid() && fresh(Repr - old(Repr))
      ensures View() == Inserted(old(View()).(isDir := rest != []), rest, more)
      decreases |rest|, 1
    {
      Mark(rest != []);
      if rest == [] {
        Count(more);
      } else {
        InsertComps(rest, more);
      }
    }

    /** Valid, and the same tree in the same memory as before. */
    twostate predicate Kept()
      reads this, Repr
    {
      old(Valid()) && Valid() && View() == old(View()) && Repr == old(Repr)
    }

    twostate lemma Untouched()
      requires old(Valid()) && forall o :: o in old(Repr) ==> unchanged(o)
      ensures Kept()
    {
    }

    /** The siblings are as before: with the child replaced or added, this is a tree again. */
    twostate lemma StillValid(first: string)
      requires old(Valid()) && first in children && children == old(children)[first := children[first]]
      requires children[first].Valid() && this !in children[first].Repr
      requires forall n :: n in old(children) && n != first ==>
        children[n].Kept() && children[n].Repr !! children[first].Repr
      requires Repr == old(Repr) + children[first].Repr
      ensures Valid()
    {
    }

    twostate lemma Reassembled(first: string)
      requires old(Valid()) && Valid() && first in children && children == old(children)[first := children[first]]
      requires forall n :: n in old(children) && n != first ==> children[n].View() == old(children[n].View())
      ensures Below() == old(Below())[first := children[first].View()]
    {
    }

    /** Changing one child leaves its siblings alone. */
    twostate lemma ChildChanged(first: string)
      requires old(Valid()) && children == old(children) && first in children
      requires isDir == old(isDir) && size == old(size) && fileCount == old(fileCount)
      requires forall o :: o in old(Repr) && o !in old(children[first].Repr) && o != this ==> unchanged(o)
      requires children[first].Valid() && fresh(children[first].Repr - old(children[first].Repr))
      requires this !in children[first].Repr && Repr == old(Repr) + children[first].Repr
      ensures Valid() && View() == WithChild(old(View()), first, children[first].View())
    {
      forall n | n in old(children) && n != first
        ensures children[n].Kept() && children[n].Repr !! children[first].Repr
      {
        assert old(children[n].Repr) !! old(children[first].Repr);
        children[n].Untouched();
      }
      StillValid(first);
      Reassembled(first);
    }
  }

  lemma Overwritten(t: Tree, name: string, a: Tree, b: Tree)
    ensures WithChild(WithChild(t, name, a), name, b) == WithChild(t, name, b)
  {
  }
}
