/** The order in which the folder list is displayed (src/App.tsx:585-591):
    the trash folder after every other folder, the others by name.
    Name comparison (`localeCompare`) is modelled as lexicographic order on
    characters. */
module FolderOrder {
  import opened Records

  /** Lexicographic "a sorts no later than b". */
  predicate NameLe(a: string, b: string)
    decreases |a|
  {
    a == [] || (b != [] && (a[0] < b[0] || (a[0] == b[0] && NameLe(a[1..], b[1..]))))
  }

  lemma {:induction false} NameLeTotal(a: string, b: string)
    ensures NameLe(a, b) || NameLe(b, a)
    decreases |a|
  {
    if a != [] && b != [] && a[0] == b[0] {
      NameLeTotal(a[1..], b[1..]);
    }
  }

  lemma {:induction false} NameLeTransitive(a: string, b: string, c: string)
    requires NameLe(a, b) && NameLe(b, c)
    ensures NameLe(a, c)
    decreases |a|
  {
    if a != [] && a[0] == b[0] && b[0] == c[0] {
      NameLeTransitive(a[1..], b[1..], c[1..]);
    }
  }

  lemma {:induction false} NameLeAntisymmetric(a: string, b: string)
    requires NameLe(a, b) && NameLe(b, a)
    ensures a == b
    decreases |a|
  {
    if a != [] {
      NameLeAntisymmetric(a[1..], b[1..]);
      assert a == [a[0]] + a[1..] && b == [b[0]] + b[1..];
    }
  }

  /** `a.localeCompare(b)`: negative, zero or positive. */
  function LocaleCompare(a: string, b: string): int
  {
    if a == b then 0 else if NameLe(a, b) then -1 else 1
  }

  /** The name comparison is a consistent three-way comparison: swapping
      the arguments flips the sign, and it is zero only for equal names. */
  lemma LocaleCompareAntisymmetric(a: string, b: string)
    ensures LocaleCompare(a, b) == -LocaleCompare(b, a)
    ensures LocaleCompare(a, b) == 0 <==> a == b
  {
    if a != b {
      NameLeTotal(a, b);
      if NameLe(a, b) && NameLe(b, a) {
        NameLeAntisymmetric(a, b);
      }
    }
  }

  /** The comparator handed to `sort` (src/App.tsx:586-590). */
  function CompareFolders(a: Folder, b: Folder): int
  {
    if a.isTrash then 1
    else if b.isTrash then -1
    else LocaleCompare(a.name, b.name)
  }

  /** The display order the comparator stands for: a folder may come before
      another when it is not the trash and either the other is the trash or
      its name sorts no later; two trash folders are equal. */
  predicate FolderLe(a: Folder, b: Folder)
  {
    if a.isTrash then b.isTrash else b.isTrash || NameLe(a.name, b.name)
  }

  /** The comparator places `a` no later than `b` exactly when FolderLe
      does, whenever at most one of the two is the trash. */
  lemma ComparatorAgrees(a: Folder, b: Folder)
    requires !(a.isTrash && b.isTrash)
    ensures CompareFolders(a, b) <= 0 <==> FolderLe(a, b)
  {
    if !a.isTrash && !b.isTrash && a.name != b.name && !NameLe(a.name, b.name) {
      NameLeTotal(a.name, b.name);
    }
    if !a.isTrash && !b.isTrash && a.name == b.name {
      NameLeRefl(a.name);
    }
  }

  lemma {:induction false} NameLeRefl(a: string)
    ensures NameLe(a, a)
    decreases |a|
  {
    if a != [] { NameLeRefl(a[1..]); }
  }

  lemma FolderLeTotal(a: Folder, b: Folder)
    ensures FolderLe(a, b) || FolderLe(b, a)
  {
    NameLeTotal(a.name, b.name);
  }

  lemma FolderLeTransitive(a: Folder, b: Folder, c: Folder)
    requires FolderLe(a, b) && FolderLe(b, c)
    ensures FolderLe(a, c)
  {
    if !a.isTrash && !b.isTrash && !c.isTrash {
      NameLeTransitive(a.name, b.name, c.name);
    }
  }

  predicate Sorted(s: seq<Folder>)
  {
    forall i, j :: 0 <= i < j < |s| ==> FolderLe(s[i], s[j])
  }

  /** Inserts `x` before the first folder it may precede. */
  function Insert(x: Folder, s: seq<Folder>): (r: seq<Folder>)
    ensures multiset(r) == multiset(s) + multiset{x}
  {
    if s == [] then [x]
    else if FolderLe(x, s[0]) then [x] + s
    else
      assert s == [s[0]] + s[1..];
      [s[0]] + Insert(x, s[1..])
  }

  lemma {:induction false} InsertSorted(x: Folder, s: seq<Folder>)
    requires Sorted(s)
    ensures Sorted(Insert(x, s))
  {
    if s == [] {
    } else if FolderLe(x, s[0]) {
      forall j | 0 < j < |s| + 1 ensures FolderLe(x, ([x] + s)[j]) {
        if j > 1 { FolderLeTransitive(x, s[0], s[j - 1]); }
      }
    } else {
      FolderLeTotal(x, s[0]);
      var rest := Insert(x, s[1..]);
      InsertSorted(x, s[1..]);
      forall y | y in rest ensures FolderLe(s[0], y) {
        assert y in multiset(rest);
        if y != x {
          assert y in multiset(s[1..]);
          var k :| 0 <= k < |s[1..]| && s[1..][k] == y;
          assert s[k + 1] == y;
        }
      }
      var r := [s[0]] + rest;
      forall i, j | 0 <= i < j < |r| ensures FolderLe(r[i], r[j]) {
        if i == 0 { assert r[j] in rest; } else { assert r[i] == rest[i - 1] && r[j] == rest[j - 1]; }
      }
    }
  }

  /** `[...folders].sort(CompareFolders)`, written as an insertion sort. */
  function SortFolders(s: seq<Folder>): (r: seq<Folder>)
    ensures multiset(r) == multiset(s)
  {
    if s == [] then []
    else
      assert s == [s[0]] + s[1..];
      Insert(s[0], SortFolders(s[1..]))
  }

  lemma {:induction false} SortFoldersSorted(s: seq<Folder>)
    ensures Sorted(SortFolders(s))
  {
    if s != [] {
      SortFoldersSorted(s[1..]);
      InsertSorted(s[0], SortFolders(s[1..]));
    }
  }

  /** The displayed folder list holds the same folders, puts the trash after
      every other folder, and orders the other folders by name. */
  lemma SortedFoldersTrashLast(s: seq<Folder>)
    ensures multiset(SortFolders(s)) == multiset(s)
    ensures forall i, j :: 0 <= i < j < |SortFolders(s)| ==>
              !(SortFolders(s)[i].isTrash && !SortFolders(s)[j].isTrash)
    ensures forall i, j :: 0 <= i < j < |SortFolders(s)| && !SortFolders(s)[j].isTrash ==>
              NameLe(SortFolders(s)[i].name, SortFolders(s)[j].name)
  {
    SortFoldersSorted(s);
  }

  /** The worked example: B, A and the trash are shown as A, B, trash. */
  lemma SortExample()
    ensures SortFolders([Folder("b", "B", false), Folder("a", "A", false), Folder(TrashId, TrashName, true)])
         == [Folder("a", "A", false), Folder("b", "B", false), Folder(TrashId, TrashName, true)]
  {
    var a, b, t := Folder("a", "A", false), Folder("b", "B", false), Folder(TrashId, TrashName, true);
    assert NameLe("A", "B") && !NameLe("B", "A");
    assert SortFolders([t]) == [t];
    assert SortFolders([a, t]) == Insert(a, [t]) == [a, t];
    assert SortFolders([b, a, t]) == Insert(b, [a, t]) == [a] + Insert(b, [t]) == [a, b, t];
  }
}
