/** The bounded walk that measures a worktree before it may be deleted: an explicit
    stack of directory iterators, against a plain recursive description of the tree. */
module DiskUsage {
  import opened Basics

  datatype Meta = Meta(device: nat, inode: nat, blocks: U64, isDir: bool)

  /** What a path that may be a symbolic link leads to. */
  datatype Target = Missing | ToFile | ToDirectory | ToSpecial

  datatype FileKind = Regular | Special | Link(target: Target)

  /** What reading a directory yields, entry by entry. An entry that cannot be read or
      looked up has no name here: no probe by name finds it either. */
  datatype Item =
    | Unreadable
    | Unstatable
    | File(name: string, meta: Meta, kind: FileKind)
    | Dir(name: string, meta: Meta, listing: Listing)

  /** A directory that may not be listed can still be searched by name. */
  datatype Listing = Refused(inside: seq<Item>) | Listed(items: seq<Item>)

  const MAX_DEPTH: nat := 64
  const MAX_SEEN: nat := 200_000

  type Inode = (nat, nat)

  function InodeOf(m: Meta): Inode {
    (m.device, m.inode)
  }

  predicate WellTyped(items: seq<Item>)
    decreases items
  {
    items == [] || (
      && WellTyped(items[1..])
      && (items[0].File? ==> !items[0].meta.isDir)
      && (items[0].Dir? ==> items[0].meta.isDir && (items[0].listing.Listed? ==> WellTyped(items[0].listing.items))))
  }

  // ---------- the plain description ----------

  function Entries(listing: Listing): seq<Item> {
    match listing
    case Refused(inside) => inside
    case Listed(items) => items
  }

  predicate Named(item: Item, name: string) {
    (item.File? || item.Dir?) && item.name == name
  }

  /** `exists`, `is_file` and `is_dir` of a name in a directory: all three follow links. */
  predicate HasEntry(items: seq<Item>, name: string) {
    exists i :: 0 <= i < |items| && Named(items[i], name) && !(items[i].File? && items[i].kind == Link(Missing))
  }

  predicate HasFile(items: seq<Item>, name: string) {
    exists i :: 0 <= i < |items| && Named(items[i], name)
                && items[i].File? && (items[i].kind == Regular || items[i].kind == Link(ToFile))
  }

  predicate HasDirectory(items: seq<Item>, name: string) {
    exists i :: 0 <= i < |items| && Named(items[i], name)
                && (items[i].Dir? || (items[i].File? && items[i].kind == Link(ToDirectory)))
  }

  /** Named `.git`, or holding one, or bare: a HEAD file beside an objects directory. */
  predicate IsRepository(d: Item)
    requires d.Dir?
  {
    || d.name == ".git"
    || HasEntry(Entries(d.listing), ".git")
    || (HasFile(Entries(d.listing), "HEAD") && HasDirectory(Entries(d.listing), "objects"))
  }

  /** The worktree's own `.git` directory, which the walk does not enter. */
  predicate OwnGit(item: Item, top: bool) {
    top && item.Dir? && item.name == ".git"
  }

  /** A directory the walk goes into: on the device, no repository, not the root's own `.git`. */
  predicate Entered(item: Item, device: nat, top: bool) {
    item.Dir? && item.meta.device == device && !OwnGit(item, top) && !IsRepository(item)
  }

  predicate Unknown(item: Item) {
    item.Unreadable? || item.Unstatable?
  }

  /** Something the walk reaches lies on another device, or is or holds a repository. */
  predicate Foreign(items: seq<Item>, device: nat, top: bool)
    decreases items
  {
    items != [] && (
      || Foreign(items[1..], device, top)
      || (!Unknown(items[0]) && items[0].meta.device != device)
      || (items[0].Dir? && items[0].meta.device == device && !OwnGit(items[0], top) && IsRepository(items[0]))
      || (Entered(items[0], device, top) && items[0].listing.Listed?
          && Foreign(items[0].listing.items, device, false)))
  }

  /** Everything the walk reaches can be looked up, and every directory it goes into can be listed. */
  predicate Readable(items: seq<Item>, device: nat, top: bool)
    decreases items
  {
    items == [] || (
      && Readable(items[1..], device, top)
      && !Unknown(items[0])
      && (Entered(items[0], device, top) ==>
            items[0].listing.Listed? && Readable(items[0].listing.items, device, false)))
  }

  /** Everything below can be read and lies on the one device, and no directory is or
      holds a repository, the root's own `.git` aside. */
  predicate Clean(items: seq<Item>, device: nat, top: bool)
    decreases items
  {
    items == [] || (
      && Clean(items[1..], device, top)
      && !items[0].Unreadable? && !items[0].Unstatable?
      && items[0].meta.device == device
      && (items[0].Dir? && !OwnGit(items[0], top) ==>
            && !IsRepository(items[0])
            && items[0].listing.Listed?
            && Clean(items[0].listing.items, device, false)))
  }

  lemma {:induction false} CleanMeaning(items: seq<Item>, device: nat, top: bool)
    ensures Clean(items, device, top) <==> Readable(items, device, top) && !Foreign(items, device, top)
    decreases items
  {
    hide IsRepository;
    if items != [] {
      CleanMeaning(items[1..], device, top);
      if Entered(items[0], device, top) && items[0].listing.Listed? {
        CleanMeaning(items[0].listing.items, device, false);
      }
    }
  }

  /** All that is counted, in the order of the walk: what lies on the device, a repository's
      own directory included, its inside not. */
  function Counted(items: seq<Item>, device: nat, top: bool): seq<Meta>
    decreases items
  {
    if items == [] then []
    else
      var rest := Counted(items[1..], device, top);
      if Unknown(items[0]) || items[0].meta.device != device || OwnGit(items[0], top) then rest
      else if Entered(items[0], device, top) && items[0].listing.Listed?
      then [items[0].meta] + Counted(items[0].listing.items, device, false) + rest
      else [items[0].meta] + rest
  }

  /** Every inode there is, the insides of the root's own `.git` included. */
  function Metas(items: seq<Item>): seq<Meta>
    decreases items
  {
    if items == [] then []
    else
      var rest := Metas(items[1..]);
      if items[0].Unreadable? || items[0].Unstatable? then rest
      else if items[0].Dir? && items[0].listing.Listed?
      then [items[0].meta] + Metas(items[0].listing.items) + rest
      else [items[0].meta] + rest
  }

  /** A directory has one place in the tree; only files may be linked twice. */
  predicate DirectoriesUnique(ms: seq<Meta>) {
    forall i, j :: 0 <= i < j < |ms| && InodeOf(ms[i]) == InodeOf(ms[j]) ==> !ms[i].isDir && !ms[j].isDir
  }

  function Weight(m: Meta): nat {
    512 * m.blocks
  }

  /** The weight of the inodes not seen yet, each once. */
  function DistinctWeight(ms: seq<Meta>, seen: set<Inode>): nat {
    if ms == [] then 0
    else if InodeOf(ms[0]) in seen then DistinctWeight(ms[1..], seen)
    else Weight(ms[0]) + DistinctWeight(ms[1..], seen + {InodeOf(ms[0])})
  }

  function Saturated(n: nat): U64 {
    if n > U64_MAX then U64_MAX else n
  }

  // ---------- the walk ----------

  function Size(items: seq<Item>): nat
    decreases items
  {
    if items == [] then 0
    else
      Size(items[1..]) + 2
      + if items[0].Dir? && items[0].listing.Listed? then Size(items[0].listing.items) else 0
  }

  /** Work left: each entry, and each iterator still to be popped. */
  function StackSize(stack: seq<seq<Item>>): nat {
    if stack == [] then 0 else StackSize(stack[..|stack| - 1]) + Size(stack[|stack| - 1]) + 1
  }

  /** How many directories deep the tree goes below its root. */
  function Depth(items: seq<Item>): nat
    decreases items
  {
    if items == [] then 0
    else
      var rest := Depth(items[1..]);
      if !items[0].Dir? then rest
      else
        var here := 1 + if items[0].listing.Listed? then Depth(items[0].listing.items) else 0;
        if here > rest then here else rest
  }

  /** What is left to count, top of the stack first; the bottom iterator is the root's. */
  function CountedStack(stack: seq<seq<Item>>, device: nat): seq<Meta> {
    if stack == [] then []
    else Counted(stack[|stack| - 1], device, |stack| == 1) + CountedStack(stack[..|stack| - 1], device)
  }

  function MetasStack(stack: seq<seq<Item>>): seq<Meta> {
    if stack == [] then [] else Metas(stack[|stack| - 1]) + MetasStack(stack[..|stack| - 1])
  }

  predicate ForeignStack(stack: seq<seq<Item>>, device: nat) {
    stack != [] && (Foreign(stack[|stack| - 1], device, |stack| == 1) || ForeignStack(stack[..|stack| - 1], device))
  }

  predicate ReadableStack(stack: seq<seq<Item>>, device: nat) {
    stack == [] || (Readable(stack[|stack| - 1], device, |stack| == 1) && ReadableStack(stack[..|stack| - 1], device))
  }

  predicate WellTypedStack(stack: seq<seq<Item>>) {
    forall i :: 0 <= i < |stack| ==> WellTyped(stack[i])
  }

  /** No directory still to be met has been seen. */
  predicate NotYetMet(ms: seq<Meta>, seen: set<Inode>) {
    forall i :: 0 <= i < |ms| && ms[i].isDir ==> InodeOf(ms[i]) !in seen
  }

  lemma TailFacts(ms: seq<Meta>, seen: set<Inode>)
    requires ms != [] && DirectoriesUnique(ms) && NotYetMet(ms, seen)
    ensures DirectoriesUnique(ms[1..]) && NotYetMet(ms[1..], seen)
    ensures NotYetMet(ms[1..], seen + {InodeOf(ms[0])})
  {
  }

  lemma DropFacts(a: seq<Meta>, b: seq<Meta>, seen: set<Inode>)
    requires DirectoriesUnique(a + b) && NotYetMet(a + b, seen)
    ensures DirectoriesUnique(b) && NotYetMet(b, seen)
  {
    assert forall i :: 0 <= i < |b| ==> (a + b)[|a| + i] == b[i];
  }

  /** What the whole walk is to find: the two flags, and the weight. */
  datatype Goal = Goal(foreign: bool, readable: bool, weight: nat)

  /** What the walk has found so far. */
  datatype Found = Found(seen: set<Inode>, bytes: U64, nested: bool, complete: bool)

  /** What was found and what is left on the stack together make up the goal. */
  ghost predicate OnCourse(stack: seq<seq<Item>>, f: Found, device: nat, goal: Goal) {
    && WellTypedStack(stack)
    && DirectoriesUnique(MetasStack(stack)) && NotYetMet(MetasStack(stack), f.seen)
    && (goal.foreign <==> f.nested || ForeignStack(stack, device))
    && (goal.readable <==> f.complete && ReadableStack(stack, device))
    && Saturated(f.bytes + DistinctWeight(CountedStack(stack, device), f.seen)) == Saturated(goal.weight)
  }

  lemma OneAbove(below: seq<seq<Item>>, items: seq<Item>, device: nat)
    ensures var stack := below + [items];
            && CountedStack(stack, device) == Counted(items, device, below == []) + CountedStack(below, device)
            && MetasStack(stack) == Metas(items) + MetasStack(below)
            && (ForeignStack(stack, device) <==> Foreign(items, device, below == []) || ForeignStack(below, device))
            && (ReadableStack(stack, device) <==>
                  Readable(items, device, below == []) && ReadableStack(below, device))
            && StackSize(stack) == StackSize(below) + Size(items) + 1
            && (WellTypedStack(stack) <==> WellTyped(items) && WellTypedStack(below))
  {
    hide Counted, Metas, Foreign, Readable, Size, WellTyped, WellTypedStack;
    var stack := below + [items];
    assert stack[..|stack| - 1] == below && stack[|below|] == items;
    WellTypedAbove(below, items);
  }

  lemma WellTypedAbove(below: seq<seq<Item>>, items: seq<Item>)
    ensures WellTypedStack(below + [items]) <==> WellTyped(items) && WellTypedStack(below)
  {
    hide WellTyped;
    var stack := below + [items];
    assert stack[|below|] == items;
    assert forall i :: 0 <= i < |below| ==> stack[i] == below[i];
  }

  lemma {:induction false} CountedAreMetas(items: seq<Item>, device: nat, top: bool, m: Meta)
    requires m in Counted(items, device, top)
    ensures m in Metas(items)
    decreases items
  {
    hide IsRepository;
    if m !in Counted(items[1..], device, top) {
      if m != items[0].meta {
        CountedAreMetas(items[0].listing.items, device, false, m);
      }
    } else {
      CountedAreMetas(items[1..], device, top, m);
    }
  }

  lemma {:induction false} CountedStackAreMetas(stack: seq<seq<Item>>, device: nat, m: Meta)
    requires m in CountedStack(stack, device)
    ensures m in MetasStack(stack)
  {
    if m in Counted(stack[|stack| - 1], device, |stack| == 1) {
      CountedAreMetas(stack[|stack| - 1], device, |stack| == 1, m);
    } else {
      CountedStackAreMetas(stack[..|stack| - 1], device, m);
    }
  }

  /** An inode that does not occur may be marked as seen. */
  lemma {:induction false} Irrelevant(ms: seq<Meta>, seen: set<Inode>, other: Inode)
    requires forall i :: 0 <= i < |ms| ==> InodeOf(ms[i]) != other
    ensures DistinctWeight(ms, seen + {other}) == DistinctWeight(ms, seen)
  {
    if ms != [] {
      assert seen + {other} + {InodeOf(ms[0])} == seen + {InodeOf(ms[0])} + {other};
      Irrelevant(ms[1..], seen, other);
      Irrelevant(ms[1..], seen + {InodeOf(ms[0])}, other);
    }
  }

  lemma PopKeepsCourse(below: seq<seq<Item>>, f: Found, device: nat, goal: Goal)
    requires OnCourse(below + [[]], f, device, goal)
    ensures OnCourse(below, f, device, goal)
  {
    OneAbove(below, [], device);
    assert Counted([], device, below == []) + CountedStack(below, device) == CountedStack(below, device);
    assert Metas([]) + MetasStack(below) == MetasStack(below);
  }

  lemma FirstIsNew(below: seq<seq<Item>>, items: seq<Item>, f: Found, device: nat, goal: Goal)
    requires items != [] && items[0].Dir? && OnCourse(below + [items], f, device, goal)
    ensures InodeOf(items[0].meta) !in f.seen
  {
    OneAbove(below, items, device);
    assert MetasStack(below + [items])[0] == items[0].meta;
    assert items[0].meta.isDir;
  }

  function Added(bytes: U64, m: Meta): U64 {
    Saturated(bytes + Saturated(Weight(m)))
  }

  lemma AddUp(bytes: U64, weight: nat, rest: nat, total: nat)
    requires Saturated(bytes + (weight + rest)) == Saturated(total)
    ensures Saturated(Saturated(bytes + Saturated(weight)) + rest) == Saturated(total)
  {
  }

  /** The account survives counting the head of what is left, or passing over it when seen. */
  lemma CountFirst(m: Meta, rest: seq<Meta>, seen: set<Inode>, bytes: U64, weight: nat)
    requires Saturated(bytes + DistinctWeight([m] + rest, seen)) == Saturated(weight)
    ensures InodeOf(m) !in seen ==>
              Saturated(Added(bytes, m) + DistinctWeight(rest, seen + {InodeOf(m)})) == Saturated(weight)
    ensures InodeOf(m) in seen ==> Saturated(bytes + DistinctWeight(rest, seen)) == Saturated(weight)
  {
    hide Saturated, Weight;
    assert ([m] + rest)[1..] == rest;
    if InodeOf(m) !in seen {
      AddUp(bytes, Weight(m), DistinctWeight(rest, seen + {InodeOf(m)}), weight);
    }
  }

  lemma HeadFacts(m: Meta, rest: seq<Meta>, seen: set<Inode>)
    requires DirectoriesUnique([m] + rest) && NotYetMet([m] + rest, seen)
    ensures DirectoriesUnique(rest) && NotYetMet(rest, seen) && NotYetMet(rest, seen + {InodeOf(m)})
  {
    TailFacts([m] + rest, seen);
    assert ([m] + rest)[1..] == rest;
  }

  /** The inodes at and below an entry. */
  function Inside(item: Item): seq<Meta> {
    if item.Dir? && item.listing.Listed? then Metas(item.listing.items) else []
  }

  /** An entry that cannot be looked up. */
  lemma UnknownStep(items: seq<Item>, device: nat, top: bool)
    requires items != [] && Unknown(items[0])
    ensures Metas(items) == Metas(items[1..]) && Counted(items, device, top) == Counted(items[1..], device, top)
    ensures (Foreign(items, device, top) <==> Foreign(items[1..], device, top)) && !Readable(items, device, top)
    ensures WellTyped(items) ==> WellTyped(items[1..])
  {
  }

  /** An entry that is passed over: on another device, or the root's own `.git`. */
  lemma PassedStep(items: seq<Item>, device: nat, top: bool)
    requires items != [] && !Unknown(items[0])
    requires items[0].meta.device != device || OwnGit(items[0], top)
    ensures Metas(items) == [items[0].meta] + Inside(items[0]) + Metas(items[1..])
    ensures Counted(items, device, top) == Counted(items[1..], device, top)
    ensures Foreign(items, device, top) <==> items[0].meta.device != device || Foreign(items[1..], device, top)
    ensures Readable(items, device, top) <==> Readable(items[1..], device, top)
    ensures WellTyped(items) ==> WellTyped(items[1..]) && (items[0].Dir? <==> items[0].meta.isDir)
  {
    hide IsRepository;
    assert [items[0].meta] + [] + Metas(items[1..]) == [items[0].meta] + Metas(items[1..]);
  }

  /** An entry that is counted and not gone into: a file, a repository, an unlistable directory. */
  lemma CountedStep(items: seq<Item>, device: nat, top: bool)
    requires items != [] && !Unknown(items[0]) && items[0].meta.device == device && !OwnGit(items[0], top)
    requires items[0].Dir? ==> IsRepository(items[0]) || items[0].listing.Refused?
    ensures Metas(items) == [items[0].meta] + Inside(items[0]) + Metas(items[1..])
    ensures Counted(items, device, top) == [items[0].meta] + Counted(items[1..], device, top)
    ensures Foreign(items, device, top) <==>
              (items[0].Dir? && IsRepository(items[0])) || Foreign(items[1..], device, top)
    ensures Readable(items, device, top) <==>
              !(items[0].Dir? && !IsRepository(items[0])) && Readable(items[1..], device, top)
    ensures WellTyped(items) ==> WellTyped(items[1..]) && (items[0].Dir? <==> items[0].meta.isDir)
  {
    hide IsRepository;
    assert [items[0].meta] + [] + Metas(items[1..]) == [items[0].meta] + Metas(items[1..]);
  }

  lemma DirStep(items: seq<Item>, device: nat, top: bool)
    requires items != [] && Entered(items[0], device, top) && items[0].listing.Listed?
    ensures var inner := items[0].listing.items;
            && Metas(items) == [items[0].meta] + Metas(inner) + Metas(items[1..])
            && Counted(items, device, top)
               == [items[0].meta] + Counted(inner, device, false) + Counted(items[1..], device, top)
            && (Foreign(items, device, top) <==> Foreign(items[1..], device, top) || Foreign(inner, device, false))
            && (Readable(items, device, top) <==> Readable(items[1..], device, top) && Readable(inner, device, false))
            && (WellTyped(items) ==> WellTyped(items[1..]) && WellTyped(inner))
  {
    hide IsRepository;
  }

  lemma Regroup2(m: Meta, a: seq<Meta>, b: seq<Meta>)
    ensures ([m] + a) + b == [m] + (a + b)
  {
  }

  lemma Regroup3(m: Meta, a: seq<Meta>, b: seq<Meta>, c: seq<Meta>)
    ensures ([m] + a + b) + c == [m] + (a + (b + c))
  {
  }

  lemma UnknownKeepsCourse(below: seq<seq<Item>>, items: seq<Item>, f: Found, device: nat, goal: Goal)
    requires items != [] && Unknown(items[0]) && OnCourse(below + [items], f, device, goal)
    ensures OnCourse(below + [items[1..]], f.(complete := false), device, goal)
  {
    hide Metas, Counted, Foreign, Readable, WellTyped, WellTypedStack, ForeignStack, ReadableStack, MetasStack,
         CountedStack, DirectoriesUnique, NotYetMet, Saturated, DistinctWeight;
    OneAbove(below, items, device);
    OneAbove(below, items[1..], device);
    UnknownStep(items, device, below == []);
  }

  lemma ForeignKeepsCourse(below: seq<seq<Item>>, items: seq<Item>, f: Found, device: nat, goal: Goal)
    requires items != [] && !Unknown(items[0]) && items[0].meta.device != device
    requires OnCourse(below + [items], f, device, goal)
    ensures OnCourse(below + [items[1..]], f.(nested := true), device, goal)
  {
    hide Metas, Counted, Foreign, Readable, WellTyped, WellTypedStack, ForeignStack, ReadableStack, MetasStack,
         CountedStack, DirectoriesUnique, NotYetMet, Saturated, DistinctWeight, Inside;
    var m, tail := items[0].meta, items[1..];
    OneAbove(below, items, device);
    OneAbove(below, tail, device);
    PassedStep(items, device, below == []);
    Regroup3(m, Inside(items[0]), Metas(tail), MetasStack(below));
    HeadFacts(m, Inside(items[0]) + (Metas(tail) + MetasStack(below)), f.seen);
    DropFacts(Inside(items[0]), Metas(tail) + MetasStack(below), f.seen);
  }

  /** A counted entry that is not gone into, seen before or not. */
  lemma CountedKeepsCourse(below: seq<seq<Item>>, items: seq<Item>, f: Found, device: nat, goal: Goal)
    requires items != [] && !Unknown(items[0]) && items[0].meta.device == device && !OwnGit(items[0], below == [])
    requires items[0].Dir? ==> IsRepository(items[0]) || items[0].listing.Refused?
    requires OnCourse(below + [items], f, device, goal)
    ensures var e, inode, next := items[0], InodeOf(items[0].meta), below + [items[1..]];
            var nested := f.nested || (e.Dir? && IsRepository(e));
            var complete := f.complete && !(e.Dir? && !IsRepository(e));
            if inode in f.seen then OnCourse(next, f, device, goal)
            else OnCourse(next, Found(f.seen + {inode}, Added(f.bytes, e.meta), nested, complete), device, goal)
  {
    hide Metas, Counted, Foreign, Readable, WellTyped, WellTypedStack, ForeignStack, ReadableStack, MetasStack,
         CountedStack, DirectoriesUnique, NotYetMet, Saturated, DistinctWeight, Added, Inside, IsRepository;
    var m, tail, inside := items[0].meta, items[1..], Inside(items[0]);
    OneAbove(below, items, device);
    OneAbove(below, tail, device);
    CountedStep(items, device, below == []);
    var rest := Metas(tail) + MetasStack(below);
    Regroup3(m, inside, Metas(tail), MetasStack(below));
    Regroup2(m, Counted(tail, device, below == []), CountedStack(below, device));
    HeadFacts(m, inside + rest, f.seen);
    DropFacts(inside, rest, f.seen);
    DropFacts(inside, rest, f.seen + {InodeOf(m)});
    CountFirst(m, Counted(tail, device, below == []) + CountedStack(below, device), f.seen, f.bytes, goal.weight);
    if items[0].Dir? {
      FirstIsNew(below, items, f, device, goal);
    }
  }

  lemma OwnGitKeepsCourse(items: seq<Item>, f: Found, device: nat, goal: Goal)
    requires items != [] && OwnGit(items[0], true) && items[0].meta.device == device
    requires OnCourse([items], f, device, goal)
    ensures OnCourse([items[1..]], f.(seen := f.seen + {InodeOf(items[0].meta)}), device, goal)
  {
    hide Metas, Counted, Foreign, Readable, WellTyped, WellTypedStack, ForeignStack, ReadableStack, MetasStack,
         CountedStack, DirectoriesUnique, NotYetMet, Saturated, DistinctWeight, Inside;
    var m, tail, inside := items[0].meta, items[1..], Inside(items[0]);
    var below: seq<seq<Item>> := [];
    assert below + [items] == [items] && below + [tail] == [tail];
    OneAbove(below, items, device);
    OneAbove(below, tail, device);
    PassedStep(items, device, true);
    Regroup3(m, inside, Metas(tail), MetasStack(below));
    var rest := Metas(tail) + MetasStack(below);
    HeadFacts(m, inside + rest, f.seen);
    DropFacts(inside, rest, f.seen);
    DropFacts(inside, rest, f.seen + {InodeOf(m)});
    OnlyHead(m, inside, rest);
    var cs := CountedStack([tail], device);
    forall i | 0 <= i < |cs|
      ensures InodeOf(cs[i]) != InodeOf(m)
    {
      CountedStackAreMetas([tail], device, cs[i]);
    }
    Irrelevant(cs, f.seen, InodeOf(m));
  }

  lemma OnlyHead(m: Meta, inside: seq<Meta>, rest: seq<Meta>)
    requires m.isDir && DirectoriesUnique([m] + (inside + rest))
    ensures forall x :: x in rest ==> InodeOf(x) != InodeOf(m)
  {
    var ms := [m] + (inside + rest);
    forall x | x in rest
      ensures InodeOf(x) != InodeOf(m)
    {
      var j :| 0 <= j < |rest| && rest[j] == x;
      assert ms[1 + |inside| + j] == x && ms[0] == m;
    }
  }

  lemma DirKeepsCourse(below: seq<seq<Item>>, items: seq<Item>, f: Found, device: nat, goal: Goal)
    requires items != [] && Entered(items[0], device, below == []) && items[0].listing.Listed?
    requires OnCourse(below + [items], f, device, goal)
    ensures OnCourse(below + [items[1..]] + [items[0].listing.items],
                     f.(seen := f.seen + {InodeOf(items[0].meta)}, bytes := Added(f.bytes, items[0].meta)),
                     device, goal)
  {
    hide Metas, Counted, Foreign, Readable, WellTyped, WellTypedStack, ForeignStack, ReadableStack, MetasStack,
         CountedStack, DirectoriesUnique, NotYetMet, Saturated, DistinctWeight, Added, IsRepository;
    var m, tail, inner := items[0].meta, items[1..], items[0].listing.items;
    OneAbove(below, items, device);
    OneAbove(below, tail, device);
    OneAbove(below + [tail], inner, device);
    FirstIsNew(below, items, f, device, goal);
    DirStep(items, device, below == []);
    Regroup3(m, Metas(inner), Metas(tail), MetasStack(below));
    Regroup3(m, Counted(inner, device, false), Counted(tail, device, below == []), CountedStack(below, device));
    HeadFacts(m, Metas(inner) + (Metas(tail) + MetasStack(below)), f.seen);
    CountFirst(m, Counted(inner, device, false) + (Counted(tail, device, below == []) + CountedStack(below, device)),
               f.seen, f.bytes, goal.weight);
  }

  /** What the walk is to find under a root. */
  ghost function GoalOf(items: seq<Item>, root: Meta): Goal {
    Goal(Foreign(items, root.device, true), Readable(items, root.device, true),
         Weight(root) + DistinctWeight(Counted(items, root.device, true), {}))
  }

  lemma NothingBelow(device: nat)
    ensures CountedStack([], device) == [] && MetasStack([]) == [] && WellTypedStack([])
    ensures !ForeignStack([], device) && ReadableStack([], device)
  {
  }

  lemma Started(items: seq<Item>, root: Meta)
    requires WellTyped(items) && DirectoriesUnique(Metas(items))
    ensures OnCourse([items], Found({}, Saturated(Weight(root)), false, true), root.device, GoalOf(items, root))
  {
    hide Counted, Metas, Foreign, Readable, WellTyped, WellTypedStack, Weight, DistinctWeight;
    var below: seq<seq<Item>> := [];
    assert below + [items] == [items];
    OneAbove(below, items, root.device);
    NothingBelow(root.device);
    assert Counted(items, root.device, true) + [] == Counted(items, root.device, true);
    assert Metas(items) + [] == Metas(items);
  }

  /** Whatever has been found or is still to be met is in the tree, cut short or not. */
  ghost predicate Honest(stack: seq<seq<Item>>, nested: bool, device: nat, foreign: bool) {
    nested || ForeignStack(stack, device) ==> foreign
  }

  /** The walk. In every tree, unless a limit cuts it short, it reports a nested repository or
      device if and only if it reaches one, an incomplete scan if and only if something it
      reaches cannot be read, and the weight of the distinct inodes it reaches, saturated. Cut
      short, it says so, and what it then reports as nested is there. So a complete scan with
      nothing nested is one of a clean tree. */
  method Measure(root: Option<Meta>, listing: Listing, late: nat -> bool)
    returns (bytes: U64, complete: bool, nested: bool, ghost cut: bool)
    requires listing.Listed? ==> WellTyped(listing.items)
    ensures root.None? ==> bytes == 0 && !complete && !nested
    ensures root.Some? && listing.Refused? ==> bytes == Saturated(Weight(root.value)) && !complete && !nested
    ensures root.Some? && listing.Listed? && !cut && DirectoriesUnique(Metas(listing.items)) ==>
              && (nested <==> Foreign(listing.items, root.value.device, true))
              && (complete <==> Readable(listing.items, root.value.device, true))
              && bytes == Saturated(Weight(root.value)
                                    + DistinctWeight(Counted(listing.items, root.value.device, true), {}))
    ensures nested ==> root.Some? && listing.Listed? && Foreign(listing.items, root.value.device, true)
    ensures cut ==> listing.Listed? && root.Some? && !complete
    ensures cut ==>
              || (exists turn :: late(turn))
              || |Metas(listing.items)| >= MAX_SEEN
              || Depth(listing.items) >= MAX_DEPTH
  {
    hide Foreign, Readable, Counted, Metas, DistinctWeight, Weight, Saturated, OnCourse, Depth, StackSize, Bounded,
         DirectoriesUnique, WellTyped, GoalOf, Honest;
    cut := false;
    if root.None? {
      return 0, false, false, false;
    }
    var device := root.value.device;
    bytes := Saturated(Weight(root.value));
    if listing.Refused? {
      return bytes, false, false, false;
    }
    var stack: seq<seq<Item>> := [listing.items];
    var seen: set<Inode> := {};
    nested, complete := false, true;
    ghost var unique := DirectoriesUnique(Metas(listing.items));
    ghost var goal := GoalOf(listing.items, root.value);
    if unique {
      Started(listing.items, root.value);
    }
    StartHonest(listing.items, root.value);
    var turn := 0;
    StartBounded(listing.items);
    while stack != []
      invariant Bounded(stack, seen, listing.items)
      invariant cut ==> Depth(listing.items) >= MAX_DEPTH && !complete
      invariant unique && !cut ==> OnCourse(stack, Found(seen, bytes, nested, complete), device, goal)
      invariant Honest(stack, nested, device, goal.foreign)
      decreases StackSize(stack)
    {
      if late(turn) || |seen| >= MAX_SEEN {
        SeenBound(stack, seen, listing.items);
        HonestNested(stack, nested, listing.items, root.value);
        return bytes, false, nested, true;
      }
      turn := turn + 1;
      var n := |stack|;
      var below, items := stack[..n - 1], stack[n - 1];
      assert stack == below + [items];
      if items == [] {
        PopBounded(below, seen, listing.items);
        PopHonest(below, nested, device, goal.foreign);
        if unique && !cut {
          PopKeepsCourse(below, Found(seen, bytes, nested, complete), device, goal);
        }
        stack := below;
      } else {
        stack, seen, bytes, complete, nested, cut :=
          Visit(below, items, seen, bytes, complete, nested, device, cut, unique, goal, listing.items);
      }
    }
    HonestNested([], nested, listing.items, root.value);
    if unique && !cut {
      Finished(Found(seen, bytes, nested, complete), listing.items, root.value);
    }
  }

  lemma StartHonest(items: seq<Item>, root: Meta)
    ensures Honest([items], false, root.device, GoalOf(items, root).foreign)
  {
    hide Foreign, Readable, Counted, DistinctWeight;
    OneAbove([], items, root.device);
    assert [] + [items] == [items];
  }

  lemma HonestNested(stack: seq<seq<Item>>, nested: bool, items: seq<Item>, root: Meta)
    requires Honest(stack, nested, root.device, GoalOf(items, root).foreign)
    ensures nested ==> Foreign(items, root.device, true)
  {
    hide Foreign, Readable, Counted, DistinctWeight;
  }

  lemma PopHonest(below: seq<seq<Item>>, nested: bool, device: nat, foreign: bool)
    requires Honest(below + [[]], nested, device, foreign)
    ensures Honest(below, nested, device, foreign)
    ensures StackSize(below) < StackSize(below + [[]])
  {
    OneAbove(below, [], device);
  }

  /** The stack is no deeper than the tree, and what is seen and unseen no more than it holds. */
  ghost predicate Bounded(stack: seq<seq<Item>>, seen: set<Inode>, tree: seq<Item>) {
    && |seen| + |MetasStack(stack)| <= |Metas(tree)|
    && DepthsFit(stack, Depth(tree))
  }

  ghost predicate DepthsFit(stack: seq<seq<Item>>, limit: nat) {
    forall i :: 0 <= i < |stack| ==> i + Depth(stack[i]) <= limit
  }

  lemma DepthsAbove(below: seq<seq<Item>>, items: seq<Item>, limit: nat)
    ensures DepthsFit(below + [items], limit) <==> |below| + Depth(items) <= limit && DepthsFit(below, limit)
  {
    hide Depth;
    var stack := below + [items];
    assert stack[|below|] == items;
    assert forall i :: 0 <= i < |below| ==> stack[i] == below[i];
  }

  lemma SeenBound(stack: seq<seq<Item>>, seen: set<Inode>, tree: seq<Item>)
    requires Bounded(stack, seen, tree)
    ensures |seen| <= |Metas(tree)|
  {
  }

  lemma MetasStep(items: seq<Item>)
    requires items != []
    ensures items[0].Unreadable? || items[0].Unstatable? ==> Metas(items) == Metas(items[1..])
    ensures !(items[0].Unreadable? || items[0].Unstatable?) ==>
              |Metas(items)|
              == 1 + |Metas(items[1..])|
                 + if items[0].Dir? && items[0].listing.Listed? then |Metas(items[0].listing.items)| else 0
    ensures Depth(items[1..]) <= Depth(items)
    ensures items[0].Dir? ==>
              1 + (if items[0].listing.Listed? then Depth(items[0].listing.items) else 0) <= Depth(items)
  {
  }

  lemma BoundedAbove(below: seq<seq<Item>>, items: seq<Item>, seen: set<Inode>, tree: seq<Item>)
    ensures Bounded(below + [items], seen, tree) <==>
            && |seen| + |Metas(items)| + |MetasStack(below)| <= |Metas(tree)|
            && |below| + Depth(items) <= Depth(tree)
            && DepthsFit(below, Depth(tree))
  {
    hide Metas, Depth, MetasStack, DepthsFit;
    OneAbove(below, items, 0);
    DepthsAbove(below, items, Depth(tree));
  }

  lemma RestBounded(below: seq<seq<Item>>, tail: seq<Item>, tree: seq<Item>)
    requires |below| + Depth(tail) <= Depth(tree) && DepthsFit(below, Depth(tree))
    ensures DepthsFit(below + [tail], Depth(tree))
    ensures |MetasStack(below + [tail])| == |Metas(tail)| + |MetasStack(below)|
  {
    hide Depth, Metas, DepthsFit, MetasStack;
    OneAbove(below, tail, 0);
    DepthsAbove(below, tail, Depth(tree));
  }

  lemma StartBounded(items: seq<Item>)
    ensures Bounded([items], {}, items)
  {
    BoundedAbove([], items, {}, items);
    assert [] + [items] == [items];
  }

  lemma PopBounded(below: seq<seq<Item>>, seen: set<Inode>, tree: seq<Item>)
    requires Bounded(below + [[]], seen, tree)
    ensures Bounded(below, seen, tree)
  {
    BoundedAbove(below, [], seen, tree);
  }

  /** One entry of the topmost directory. */
  method Visit(below: seq<seq<Item>>, items: seq<Item>, seen: set<Inode>, bytes: U64, complete: bool, nested: bool,
               device: nat, ghost cut: bool, ghost unique: bool, ghost goal: Goal, ghost tree: seq<Item>)
    returns (stack': seq<seq<Item>>, seen': set<Inode>, bytes': U64, complete': bool, nested': bool, ghost cut': bool)
    requires items != []
    requires unique && !cut ==> OnCourse(below + [items], Found(seen, bytes, nested, complete), device, goal)
    requires Honest(below + [items], nested, device, goal.foreign)
    requires Bounded(below + [items], seen, tree)
    requires cut ==> !complete
    ensures unique && !cut' ==> OnCourse(stack', Found(seen', bytes', nested', complete'), device, goal)
    ensures Honest(stack', nested', device, goal.foreign)
    ensures StackSize(stack') < StackSize(below + [items])
    ensures Bounded(stack', seen', tree)
    ensures cut' ==> !complete' && (cut || Depth(tree) >= MAX_DEPTH)
    ensures cut ==> cut'
  {
    hide HasEntry, HasFile, HasDirectory;
    hide Foreign, Readable, OnCourse, WellTyped, Metas, Counted, DirectoriesUnique, DistinctWeight, Size, StackSize,
         WellTypedStack, ForeignStack, ReadableStack, MetasStack, CountedStack, Weight, Saturated, Depth, Bounded,
         DepthsFit, Honest, Added;
    MetasStep(items);
    BoundedAbove(below, items, seen, tree);
    BoundedAbove(below, items[1..], seen, tree);
    ghost var good := unique && !cut;
    var entry := items[0];
    var rest := below + [items[1..]];
    OneAbove(below, items, device);
    OneAbove(below, items[1..], device);
    SizeStep(items);
    EntryIsHonest(below, items, nested, device, goal.foreign);
    if good {
      EntryKeepsCourse(below, items, Found(seen, bytes, nested, complete), device, goal);
    }
    stack', seen', bytes', complete', nested', cut' := rest, seen, bytes, complete, nested, cut;
    if entry.Unreadable? || entry.Unstatable? {
      complete' := false;
      return;
    }
    var meta := entry.meta;
    if meta.device != device {
      nested' := true;
      return;
    }
    if InodeOf(meta) in seen {
      return;
    }
    seen' := seen + {InodeOf(meta)};
    BoundedAbove(below, items[1..], seen', tree);
    if entry.Dir? && |below| == 0 && entry.name == ".git" {
      return;
    }
    bytes' := Added(bytes, meta);
    if entry.Dir? {
      var inside := Entries(entry.listing);
      if entry.name == ".git" || HasEntry(inside, ".git")
         || (HasFile(inside, "HEAD") && HasDirectory(inside, "objects"))
      {
        nested' := true;
        return;
      }
      if |below| + 1 >= MAX_DEPTH {
        complete', cut' := false, true;
        return;
      }
      match entry.listing {
        case Listed(inner) =>
          OneAbove(rest, inner, device);
          RestBounded(below, items[1..], tree);
          BoundedAbove(rest, inner, seen', tree);
          stack' := rest + [inner];
        case Refused(_) =>
          complete' := false;
      }
    }
  }

  /** Where the course leads from the next entry. */
  lemma EntryKeepsCourse(below: seq<seq<Item>>, items: seq<Item>, f: Found, device: nat, goal: Goal)
    requires items != [] && OnCourse(below + [items], f, device, goal)
    ensures var e, rest := items[0], below + [items[1..]];
            if Unknown(e) then OnCourse(rest, f.(complete := false), device, goal)
            else if e.meta.device != device then OnCourse(rest, f.(nested := true), device, goal)
            else if InodeOf(e.meta) in f.seen then e.File? && OnCourse(rest, f, device, goal)
            else
              var seen, bytes := f.seen + {InodeOf(e.meta)}, Added(f.bytes, e.meta);
              if OwnGit(e, below == []) then OnCourse(rest, f.(seen := seen), device, goal)
              else if e.File? then OnCourse(rest, f.(seen := seen, bytes := bytes), device, goal)
              else if IsRepository(e)
              then OnCourse(rest, f.(seen := seen, bytes := bytes, nested := true), device, goal)
              else if e.listing.Refused?
              then OnCourse(rest, f.(seen := seen, bytes := bytes, complete := false), device, goal)
              else OnCourse(rest + [e.listing.items], f.(seen := seen, bytes := bytes), device, goal)
  {
    hide OnCourse, Added, IsRepository;
    var e := items[0];
    if Unknown(e) {
      UnknownKeepsCourse(below, items, f, device, goal);
    } else if e.meta.device != device {
      ForeignKeepsCourse(below, items, f, device, goal);
    } else {
      if e.Dir? {
        FirstIsNew(below, items, f, device, goal);
      }
      if OwnGit(e, below == []) {
        assert below + [items] == [items] && below + [items[1..]] == [items[1..]];
        OwnGitKeepsCourse(items, f, device, goal);
      } else if Entered(e, device, below == []) && e.listing.Listed? {
        DirKeepsCourse(below, items, f, device, goal);
      } else {
        CountedKeepsCourse(below, items, f, device, goal);
      }
    }
  }

  /** Nothing is reported nested that is not there, whichever way the walk goes on. */
  lemma EntryIsHonest(below: seq<seq<Item>>, items: seq<Item>, nested: bool, device: nat, foreign: bool)
    requires items != [] && Honest(below + [items], nested, device, foreign)
    ensures var e, rest := items[0], below + [items[1..]];
            && Honest(rest, nested, device, foreign)
            && (!Unknown(e) && e.meta.device != device ==> Honest(rest, true, device, foreign))
            && (e.Dir? && e.meta.device == device && !OwnGit(e, below == []) && IsRepository(e) ==>
                  Honest(rest, true, device, foreign))
            && (Entered(e, device, below == []) && e.listing.Listed? ==>
                  Honest(rest + [e.listing.items], nested, device, foreign))
  {
    hide ForeignStack, IsRepository;
    OneAbove(below, items, device);
    OneAbove(below, items[1..], device);
    if Entered(items[0], device, below == []) && items[0].listing.Listed? {
      OneAbove(below + [items[1..]], items[0].listing.items, device);
    }
  }

  lemma SizeStep(items: seq<Item>)
    requires items != []
    ensures Size(items) == Size(items[1..]) + 2
                           + if items[0].Dir? && items[0].listing.Listed? then Size(items[0].listing.items) else 0
  {
  }

  lemma Finished(f: Found, items: seq<Item>, root: Meta)
    requires OnCourse([], f, root.device, GoalOf(items, root))
    ensures f.nested <==> Foreign(items, root.device, true)
    ensures f.complete <==> Readable(items, root.device, true)
    ensures f.bytes == Saturated(Weight(root) + DistinctWeight(Counted(items, root.device, true), {}))
  {
    hide Foreign, Readable, Counted, Weight;
  }
}
