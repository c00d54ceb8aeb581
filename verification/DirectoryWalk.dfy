/** The walk through a selected folder with a stack of pending directories. */
module DirectoryWalk {
  /** What a directory entry turns out to be: a file or a link, something that cannot be looked at, or a
      directory with its entries in listing order. */
  datatype Entry =
    | Leaf(id: nat)
    | Gone(id: nat)
    | Folder(id: nat, readable: bool, entries: seq<Entry>)

  /** The candidates below an entry, with multiplicity. */
  function Leaves(e: Entry): multiset<nat> {
    match e
    case Leaf(id) => multiset{id}
    case Gone(_) => multiset{}
    case Folder(_, readable, entries) => if readable then AllLeaves(entries) else multiset{}
  }

  function AllLeaves(entries: seq<Entry>): multiset<nat> {
    if entries == [] then multiset{} else Leaves(entries[0]) + AllLeaves(entries[1..])
  }

  /** The issues below an entry: what could not be looked at or listed. */
  function Issues(e: Entry): multiset<nat> {
    match e
    case Leaf(_) => multiset{}
    case Gone(id) => multiset{id}
    case Folder(id, readable, entries) => if readable then AllIssues(entries) else multiset{id}
  }

  function AllIssues(entries: seq<Entry>): multiset<nat> {
    if entries == [] then multiset{} else Issues(entries[0]) + AllIssues(entries[1..])
  }

  function Size(e: Entry): nat {
    if e.Folder? then 1 + TotalSize(e.entries) else 1
  }

  function TotalSize(entries: seq<Entry>): nat {
    if entries == [] then 0 else Size(entries[0]) + TotalSize(entries[1..])
  }

  lemma {:induction false} AllJoin(a: seq<Entry>, b: seq<Entry>)
    ensures AllLeaves(a + b) == AllLeaves(a) + AllLeaves(b)
    ensures AllIssues(a + b) == AllIssues(a) + AllIssues(b)
    ensures TotalSize(a + b) == TotalSize(a) + TotalSize(b)
    decreases |a|
  {
    if a == [] {
      assert a + b == b;
    } else {
      assert (a + b)[1..] == a[1..] + b;
      AllJoin(a[1..], b);
    }
  }

  lemma One(e: Entry)
    ensures AllLeaves([e]) == Leaves(e) && AllIssues([e]) == Issues(e) && TotalSize([e]) == Size(e)
  {}

  /** What was pending as a whole is found in part and still pending in part. */
  lemma Split(done: multiset<nat>, left: multiset<nat>, whole: multiset<nat>, part: multiset<nat>, rest: multiset<nat>)
    requires part + rest == whole
    ensures (done + part) + (left + rest) == done + (left + whole)
  {}

  /** Yields every candidate below the folder exactly as often as it is there, and reports every issue. */
  method Walk(root: Entry) returns (found: seq<nat>, issues: seq<nat>)
    requires root.Folder?
    ensures multiset(found) == Leaves(root)
    ensures multiset(issues) == Issues(root)
  {
    found, issues := [], [];
    var pending := [root];
    One(root);
    while pending != []
      invariant forall e :: e in pending ==> e.Folder?
      invariant multiset(found) + AllLeaves(pending) == Leaves(root)
      invariant multiset(issues) + AllIssues(pending) == Issues(root)
      decreases TotalSize(pending)
    {
      hide AllLeaves, AllIssues, TotalSize;
      var last := |pending| - 1;
      var directory, others := pending[last], pending[..last];
      assert pending == others + [directory];
      AllJoin(others, [directory]);
      One(directory);
      var here, troubles, more := List(directory);
      AllJoin(others, more);
      Split(multiset(found), AllLeaves(others), Leaves(directory), multiset(here), AllLeaves(more));
      Split(multiset(issues), AllIssues(others), Issues(directory), multiset(troubles), AllIssues(more));
      found, issues, pending := found + here, issues + troubles, others + more;
    }
  }

  /** Where an entry goes: to the candidates, to the issues, or to the pending directories. */
  function Placed(entry: Entry): (seq<nat>, seq<nat>, seq<Entry>) {
    match entry
    case Leaf(id) => ([id], [], [])
    case Gone(id) => ([], [id], [])
    case Folder(_, _, _) => ([], [], [entry])
  }

  lemma PlacedWhole(entry: Entry)
    ensures multiset(Placed(entry).0) + AllLeaves(Placed(entry).2) == Leaves(entry)
    ensures multiset(Placed(entry).1) + AllIssues(Placed(entry).2) == Issues(entry)
    ensures TotalSize(Placed(entry).2) <= Size(entry)
    ensures forall e :: e in Placed(entry).2 ==> e.Folder?
  {}

  lemma Together(a: multiset<nat>, b: multiset<nat>, c: multiset<nat>, d: multiset<nat>)
    ensures (a + b) + (c + d) == (a + c) + (b + d)
  {}

  /** A part of a listing, sorted into candidates, issues and pending directories, with nothing lost. */
  ghost predicate Listed(part: seq<Entry>, found: seq<nat>, issues: seq<nat>, folders: seq<Entry>) {
    && (forall e :: e in folders ==> e.Folder?)
    && multiset(found) + AllLeaves(folders) == AllLeaves(part)
    && multiset(issues) + AllIssues(folders) == AllIssues(part)
    && TotalSize(folders) <= TotalSize(part)
  }

  lemma OneMoreEntry(part: seq<Entry>, entry: Entry, found: seq<nat>, issues: seq<nat>, folders: seq<Entry>)
    requires Listed(part, found, issues, folders)
    ensures
      var (here, troubles, pending) := Placed(entry);
      Listed(part + [entry], found + here, issues + troubles, folders + pending)
  {
    hide AllLeaves, AllIssues, TotalSize, Leaves, Issues, Placed;
    var (here, troubles, pending) := Placed(entry);
    PlacedWhole(entry);
    One(entry);
    AllJoin(part, [entry]);
    AllJoin(folders, pending);
    Together(multiset(found), AllLeaves(folders), multiset(here), AllLeaves(pending));
    Together(multiset(issues), AllIssues(folders), multiset(troubles), AllIssues(pending));
  }

  /** A whole directory sorted in this way; what is still pending is smaller than the directory was. */
  ghost predicate Opened(directory: Entry, found: seq<nat>, issues: seq<nat>, folders: seq<Entry>) {
    && (forall e :: e in folders ==> e.Folder?)
    && multiset(found) + AllLeaves(folders) == Leaves(directory)
    && multiset(issues) + AllIssues(folders) == Issues(directory)
    && TotalSize(folders) < Size(directory)
  }

  lemma OpenedUnreadable(directory: Entry)
    requires directory.Folder? && !directory.readable
    ensures Opened(directory, [], [directory.id], [])
  {}

  lemma OpenedReadable(directory: Entry, found: seq<nat>, issues: seq<nat>, folders: seq<Entry>)
    requires directory.Folder? && directory.readable && Listed(directory.entries, found, issues, folders)
    ensures Opened(directory, found, issues, folders)
  {}

  lemma NothingListed()
    ensures Listed([], [], [], [])
  {}

  /** One directory: candidates and issues at once, subdirectories for later. */
  method List(directory: Entry) returns (found: seq<nat>, issues: seq<nat>, folders: seq<Entry>)
    requires directory.Folder?
    ensures Opened(directory, found, issues, folders)
  {
    hide Listed, Placed, Opened;
    found, issues, folders := [], [], [];
    if !directory.readable {
      OpenedUnreadable(directory);
      return [], [directory.id], [];
    }
    var entries := directory.entries;
    NothingListed();
    for k := 0 to |entries|
      invariant Listed(entries[..k], found, issues, folders)
    {
      var (here, troubles, pending) := Placed(entries[k]);
      OneMoreEntry(entries[..k], entries[k], found, issues, folders);
      assert entries[..k + 1] == entries[..k] + [entries[k]];
      found, issues, folders := found + here, issues + troubles, folders + pending;
    }
    assert entries[..|entries|] == entries;
    OpenedReadable(directory, found, issues, folders);
  }
}
