/** The application state of src/App.tsx together with the two tables of the
    browser-local store it writes through to: the file table and the folder
    table (keyed by id), the file list on screen, and the selected folder.
    The React copy of the folder list is not kept apart: the source refills
    it from the folder table after every change, and the order the table
    returns records in (primary-key order) is not modelled, so listings are
    "every matching record once, in some order".
    User confirmations and prompts are parameters; ids and clock readings
    (`Date.now()`, `Math.random()`) are parameters too. A table `add` with an
    id that is already taken fails in the store and leaves the state as it
    was, since the state update after it is not reached. */
module Store {
  import opened Records
  import opened Lifecycle

  /** Each file sits under its own id. */
  predicate Keyed(t: map<string, MyFile>)
  {
    forall k :: k in t ==> t[k].id == k
  }

  /** Each folder sits under its own id. */
  predicate FoldersKeyed(t: map<string, Folder>)
  {
    forall k :: k in t ==> t[k].id == k
  }

  /** The records of `t` that `keep` admits, each once, in some order: a
      `toArray()` or `where(...)` query on the file table. */
  method Collect(t: map<string, MyFile>, keep: MyFile -> bool) returns (r: seq<MyFile>)
    requires Keyed(t)
    ensures forall f :: f in r <==> f in t.Values && keep(f)
    ensures forall i, j :: 0 <= i < j < |r| ==> r[i].id != r[j].id
  {
    r := [];
    var rest := t.Keys;
    while rest != {}
      invariant rest <= t.Keys
      invariant forall f :: f in r ==> f.id in t && t[f.id] == f && f.id !in rest && keep(f)
      invariant forall k :: k in t && k !in rest && keep(t[k]) ==> t[k] in r
      invariant forall i, j :: 0 <= i < j < |r| ==> r[i].id != r[j].id
      decreases rest
    {
      var k :| k in rest;
      if keep(t[k]) {
        r := r + [t[k]];
      }
      rest := rest - {k};
    }
    forall f | f in t.Values && keep(f) ensures f in r {
      var k :| k in t && t[k] == f;
    }
  }

  lemma MapNotEmpty<K, V>(m: map<K, V>)
    requires m != map[]
    ensures exists k :: k in m
  {
    assert |m.Keys| == |m| != 0;
    var k :| k in m.Keys;
  }

  const TrashFolder: Folder := Folder(TrashId, TrashName, true)

  /** The file table and the records appended to the list on screen once
      the uploads of a drop on `folderId` are ingested one after another,
      each with its own fresh id and extraction outcome: an allowed upload
      whose id is still free is stored and appended, any other is skipped
      (src/App.tsx:328-363, 379-384). */
  function DropEffect(files: map<string, MyFile>, folderId: string, uploads: seq<Upload>,
                      ids: seq<string>, extracted: seq<Option<nat>>): (map<string, MyFile>, seq<MyFile>)
    requires |ids| == |uploads| && |extracted| == |uploads|
  {
    if uploads == [] then (files, [])
    else
      var n := |uploads| - 1;
      var before := DropEffect(files, folderId, uploads[..n], ids[..n], extracted[..n]);
      var record := IngestRecord(uploads[n], folderId, ids[n], extracted[n]);
      if record.Some? && ids[n] !in before.0 then (before.0[ids[n] := record.value], before.1 + [record.value])
      else before
  }

  /** A drop whose first item has no type is taken for a directory
      (src/App.tsx:366). */
  predicate DirectoryDrop(uploads: seq<Upload>)
  {
    uploads != [] && uploads[0].mimeType == ""
  }

  /** `t` extends `files` by new records keyed by their own ids, and `added`
      lists exactly those new records, each once. */
  predicate AppendsNewEntries(files: map<string, MyFile>, t: map<string, MyFile>, added: seq<MyFile>)
  {
    (forall k :: k in files ==> k in t && t[k] == files[k])
    && (forall k :: k in t && k !in files ==> t[k].id == k)
    && (forall f :: f in added ==> f.id in t && f.id !in files && t[f.id] == f)
    && (forall k :: k in t && k !in files ==> t[k] in added)
    && (forall i, j :: 0 <= i < j < |added| ==> added[i].id != added[j].id)
  }

  /** A drop keeps every stored record, and what it appends to the list on
      screen is exactly the records it adds to the table, each once. */
  lemma {:induction false} DropAppendsNewRecords(files: map<string, MyFile>, folderId: string, uploads: seq<Upload>,
                                                 ids: seq<string>, extracted: seq<Option<nat>>)
    requires |ids| == |uploads| && |extracted| == |uploads|
    ensures AppendsNewEntries(files, DropEffect(files, folderId, uploads, ids, extracted).0,
                              DropEffect(files, folderId, uploads, ids, extracted).1)
  {
    if uploads != [] {
      var n := |uploads| - 1;
      DropAppendsNewRecords(files, folderId, uploads[..n], ids[..n], extracted[..n]);
    }
  }
  /** Every record a drop adds is the ingest record of one of its uploads,
      under that upload's id. */
  lemma {:induction false} DropRecordsFromUploads(files: map<string, MyFile>, folderId: string, uploads: seq<Upload>,
                                                  ids: seq<string>, extracted: seq<Option<nat>>)
    requires |ids| == |uploads| && |extracted| == |uploads|
    ensures forall k :: k in DropEffect(files, folderId, uploads, ids, extracted).0 && k !in files ==>
              exists i :: 0 <= i < |ids| && ids[i] == k
                && IngestRecord(uploads[i], folderId, k, extracted[i]) == Some(DropEffect(files, folderId, uploads, ids, extracted).0[k])
  {
    if uploads != [] {
      var n := |uploads| - 1;
      var t := DropEffect(files, folderId, uploads, ids, extracted).0;
      var before := DropEffect(files, folderId, uploads[..n], ids[..n], extracted[..n]).0;
      DropRecordsFromUploads(files, folderId, uploads[..n], ids[..n], extracted[..n]);
      forall k | k in t && k !in files
        ensures exists i :: 0 <= i < |ids| && ids[i] == k
                  && IngestRecord(uploads[i], folderId, k, extracted[i]) == Some(t[k])
      {
        if k in before && t[k] == before[k] {
          var i :| 0 <= i < n && ids[..n][i] == k
                   && IngestRecord(uploads[..n][i], folderId, k, extracted[..n][i]) == Some(before[k]);
          assert ids[i] == k && uploads[i] == uploads[..n][i] && extracted[i] == extracted[..n][i];
        } else {
          assert ids[n] == k && IngestRecord(uploads[n], folderId, k, extracted[n]) == Some(t[k]);
        }
      }
    }
  }

  /** Every allowed upload whose id was not stored before the drop has its
      id stored after it. */
  lemma {:induction false} DropStoresAllowed(files: map<string, MyFile>, folderId: string, uploads: seq<Upload>,
                                             ids: seq<string>, extracted: seq<Option<nat>>)
    requires |ids| == |uploads| && |extracted| == |uploads|
    ensures forall i :: 0 <= i < |ids| && uploads[i].mimeType in AllowedTypes && ids[i] !in files ==>
              ids[i] in DropEffect(files, folderId, uploads, ids, extracted).0
  {
    if uploads != [] {
      var n := |uploads| - 1;
      var t := DropEffect(files, folderId, uploads, ids, extracted).0;
      var before := DropEffect(files, folderId, uploads[..n], ids[..n], extracted[..n]).0;
      DropStoresAllowed(files, folderId, uploads[..n], ids[..n], extracted[..n]);
      assert before.Keys <= t.Keys;
      forall i | 0 <= i < |ids| && uploads[i].mimeType in AllowedTypes && ids[i] !in files
        ensures ids[i] in t
      {
        if i < n {
          assert ids[..n][i] == ids[i] && uploads[..n][i] == uploads[i];
        }
      }
    }
  }


  /** Every file with a home folder has it stored: no file points to a
      folder that does not exist. */
  predicate HomesStored(files: map<string, MyFile>, folders: map<string, Folder>)
  {
    forall k :: k in files && files[k].originalFolderId.Some? ==> files[k].originalFolderId.value in folders
  }

  /** The folder-delete cascade is what keeps that rule: once the folder's
      files are gone, the folder itself can go. */
  lemma CascadeKeepsHomes(files: map<string, MyFile>, folders: map<string, Folder>, folderId: string)
    requires HomesStored(files, folders)
    ensures HomesStored(CascadeDelete(files, folderId), folders - {folderId})
  {
  }

  class FileManager {
    /** The file table and the folder table of the store. */
    var files: map<string, MyFile>
    var folders: map<string, Folder>
    /** The file list on screen (the `files` state). */
    var shown: seq<MyFile>
    /** The selected folder (the `selectedFolder` state). */
    var selected: Option<Folder>

    /** The tables are keyed by the records' own ids. */
    predicate Valid()
      reads this
    {
      Keyed(files) && FoldersKeyed(folders)
    }

    /** Every stored file's flag pair agrees. */
    predicate FlagsConsistent()
      reads this
    {
      forall k :: k in files ==> FlagsAgree(files[k])
    }

    /** The ownership rule: every file's home folder is stored, and so is
        the selected folder. */
    predicate Owned()
      reads this
    {
      HomesStored(files, folders) && (selected.Some? ==> selected.value.id in folders)
    }

    /** The state on start-up: the tables as stored, nothing shown or selected. */
    constructor (storedFolders: map<string, Folder>, storedFiles: map<string, MyFile>)
      requires FoldersKeyed(storedFolders) && Keyed(storedFiles)
      ensures Valid()
      ensures folders == storedFolders && files == storedFiles
      ensures HomesStored(storedFiles, storedFolders) ==> Owned()
      ensures shown == [] && selected == None
    {
      folders, files := storedFolders, storedFiles;
      shown, selected := [], None;
    }

    /** Clicking a folder other than the selected one: it becomes the
        selection and the shown list is fetched with the folder's query
        (src/App.tsx:169-187, 773). Clicking the folder that is already
        selected fetches nothing in the source and is not this method. */
    method SelectFolder(folder: Folder)
      requires Valid() && folder.id in folders
      modifies this
      ensures Valid()
      ensures selected == Some(folder)
      ensures files == old(files) && folders == old(folders)
      ensures forall f :: f in shown <==> f in files.Values && InView(folder, f)
      ensures forall i, j :: 0 <= i < j < |shown| ==> shown[i].id != shown[j].id
      ensures old(Owned()) ==> Owned()
    {
      selected := Some(folder);
      shown := Collect(files, f => InView(folder, f));
    }

    /** First load: a store with no folder gets the trash folder, and the
        first folder is selected and shown (src/App.tsx:138-166). The
        selection test reads the selection as it was when the component
        mounted, which is always none, so a folder is always selected. */
    method InitializeData()
      requires Valid()
      modifies this
      ensures Valid()
      ensures old(folders) == map[] ==> folders == map[TrashId := TrashFolder] && selected == Some(TrashFolder)
      ensures old(folders) != map[] ==> folders == old(folders)
      ensures files == old(files)
      ensures selected.Some? && selected.value.id in folders && folders[selected.value.id] == selected.value
      ensures forall f :: f in shown <==> f in files.Values && InView(selected.value, f)
      ensures old(Owned()) ==> Owned()
    {
      if folders == map[] {
        folders := map[TrashId := TrashFolder];
      }
      shown := Collect(files, f => true);
      var first: string;
      if TrashId in folders {
        first := TrashId;
      } else {
        assert folders != map[];
        assert exists k :: k in folders by { MapNotEmpty(folders); }
        first :| first in folders;
      }
      SelectFolder(folders[first]);
    }

    /** New folder: nothing happens for a cancelled or empty name; otherwise
        one non-trash folder with the fresh id is added (src/App.tsx:189-199). */
    method AddFolder(name: Option<string>, newId: string) returns (added: bool)
      requires Valid()
      modifies this
      ensures Valid()
      ensures added <==> Truthy(name) && newId !in old(folders)
      ensures folders == if added then old(folders)[newId := Folder(newId, name.value, false)] else old(folders)
      ensures files == old(files) && shown == old(shown) && selected == old(selected)
      ensures old(Owned()) ==> Owned()
    {
      added := Truthy(name) && newId !in folders;
      if added {
        folders := folders[newId := Folder(newId, name.value, false)];
      }
    }

    /** Rename: nothing happens for a missing folder or a cancelled or empty
        name; otherwise only that folder's name changes
        (src/App.tsx:440-449). */
    method EditFolderName(folderId: string, newName: Option<string>) returns (renamed: bool)
      requires Valid()
      modifies this
      ensures Valid()
      ensures renamed <==> folderId in old(folders) && Truthy(newName)
      ensures folders == if renamed then old(folders)[folderId := old(folders)[folderId].(name := newName.value)]
                         else old(folders)
      ensures files == old(files) && shown == old(shown) && selected == old(selected)
      ensures old(Owned()) ==> Owned()
    {
      renamed := folderId in folders && Truthy(newName);
      if renamed {
        folders := folders[folderId := folders[folderId].(name := newName.value)];
      }
    }

    /** Folder delete, once confirmed: every file whose home is the folder is
        deleted one at a time, trashed or not; then the folder; the shown
        list is emptied and a selection of that folder is cleared
        (src/App.tsx:451-466). */
    method DeleteFolder(folderId: string, confirmed: bool)
      requires Valid()
      modifies this
      ensures Valid()
      ensures !confirmed ==> files == old(files) && folders == old(folders)
                             && shown == old(shown) && selected == old(selected)
      ensures confirmed ==> files == CascadeDelete(old(files), folderId)
      ensures confirmed ==> folders == old(folders) - {folderId} && shown == []
      ensures confirmed ==> selected == if old(selected).Some? && old(selected).value.id == folderId
                                        then None else old(selected)
      ensures old(FlagsConsistent()) ==> FlagsConsistent()
      ensures old(Owned()) ==> Owned()
    {
      if !confirmed {
        return;
      }
      var victims := set k | k in files && files[k].originalFolderId == Some(folderId);
      while victims != {}
        invariant victims <= files.Keys
        invariant forall k :: k in files <==>
                    (k in old(files) && (old(files)[k].originalFolderId != Some(folderId) || k in victims))
        invariant forall k :: k in files ==> files[k] == old(files)[k]
        invariant folders == old(folders) && selected == old(selected) && shown == old(shown)
        decreases victims
      {
        var k :| k in victims;
        files := files - {k};
        victims := victims - {k};
      }
      assert files == CascadeDelete(old(files), folderId);
      folders := folders - {folderId};
      shown := [];
      if selected.Some? && selected.value.id == folderId {
        selected := None;
      }
    }

    /** Move to trash, once confirmed and when the file exists: the file is
        marked trashed, hidden and stamped, and leaves the shown list; its
        home folder and every other record stay as they were
        (src/App.tsx:477-492). */
    method MoveToTrash(folderId: string, fileId: string, confirmed: bool, now: int)
      requires Valid()
      modifies this
      ensures Valid()
      ensures confirmed && fileId in old(files) ==>
                files == old(files)[fileId := Trashed(old(files)[fileId], now)]
                && shown == WithoutFile(old(shown), fileId)
      ensures !(confirmed && fileId in old(files)) ==> files == old(files) && shown == old(shown)
      ensures folders == old(folders) && selected == old(selected)
      ensures old(FlagsConsistent()) ==> FlagsConsistent()
      ensures old(Owned()) ==> Owned()
    {
      if confirmed && fileId in files {
        files := files[fileId := Trashed(files[fileId], now)];
        shown := WithoutFile(shown, fileId);
      }
    }

    /** Permanent delete, once confirmed: the record is removed and the shown
        list becomes every remaining file, whatever folder is selected
        (src/App.tsx:494-499). */
    method PermanentlyDeleteFile(fileId: string, confirmed: bool)
      requires Valid()
      modifies this
      ensures Valid()
      ensures confirmed ==> files == old(files) - {fileId}
                            && (forall f :: f in shown <==> f in files.Values)
                            && (forall i, j :: 0 <= i < j < |shown| ==> shown[i].id != shown[j].id)
      ensures !confirmed ==> files == old(files) && shown == old(shown)
      ensures folders == old(folders) && selected == old(selected)
      ensures old(FlagsConsistent()) ==> FlagsConsistent()
      ensures old(Owned()) ==> Owned()
    {
      if confirmed {
        files := files - {fileId};
        shown := Collect(files, f => true);
      }
    }

    /** Restore: nothing happens for a missing file or one without a home
        folder; otherwise it becomes active again and the shown list becomes
        every file (src/App.tsx:501-513). */
    method RestoreFile(fileId: string)
      requires Valid()
      modifies this
      ensures Valid()
      ensures fileId !in old(files) || !CanRestore(old(files)[fileId]) ==>
                files == old(files) && shown == old(shown)
      ensures fileId in old(files) && CanRestore(old(files)[fileId]) ==>
                files == old(files)[fileId := Restored(old(files)[fileId])]
                && (forall f :: f in shown <==> f in files.Values)
                && (forall i, j :: 0 <= i < j < |shown| ==> shown[i].id != shown[j].id)
      ensures folders == old(folders) && selected == old(selected)
      ensures old(FlagsConsistent()) ==> FlagsConsistent()
      ensures old(Owned()) ==> Owned()
    {
      if fileId !in files || !CanRestore(files[fileId]) {
        return;
      }
      files := files[fileId := Restored(files[fileId])];
      shown := Collect(files, f => true);
    }

    /** Adding a finished record: it is stored and appended to the shown
        list, unless its id is taken (src/App.tsx:724-729). */
    method AddNewFile(newFile: MyFile) returns (added: bool)
      requires Valid()
      modifies this
      ensures Valid()
      ensures added <==> newFile.id !in old(files)
      ensures files == if added then old(files)[newFile.id := newFile] else old(files)
      ensures shown == if added then old(shown) + [newFile] else old(shown)
      ensures folders == old(folders) && selected == old(selected)
      ensures old(FlagsConsistent()) && FlagsAgree(newFile) ==> FlagsConsistent()
      ensures old(Owned()) && (newFile.originalFolderId.Some? ==> newFile.originalFolderId.value in folders) ==> Owned()
    {
      added := newFile.id !in files;
      if added {
        files := files[newFile.id := newFile];
        shown := shown + [newFile];
      }
    }

    /** Ingest of one read upload into folder `folderId`: a type outside the
        allow-list is skipped with a warning and nothing changes; otherwise
        the ingest record is stored and appended to the shown list
        (src/App.tsx:328-363). */
    method ProcessFile(u: Upload, folderId: string, newId: string, extracted: Option<nat>) returns (added: bool)
      requires Valid()
      modifies this
      ensures Valid()
      ensures added <==> u.mimeType in AllowedTypes && newId !in old(files)
      ensures added ==> files == old(files)[newId := IngestRecord(u, folderId, newId, extracted).value]
                        && shown == old(shown) + [IngestRecord(u, folderId, newId, extracted).value]
      ensures !added ==> files == old(files) && shown == old(shown)
      ensures folders == old(folders) && selected == old(selected)
      ensures old(FlagsConsistent()) ==> FlagsConsistent()
      ensures old(Owned()) && folderId in folders ==> Owned()
    {
      var record := IngestRecord(u, folderId, newId, extracted);
      if record.None? {
        return false;
      }
      added := AddNewFile(record.value);
    }

    /** The ordinary path of a drop: each upload is ingested in turn into
        folder `folderId` (src/App.tsx:379-384). */
    method IngestInTurn(folderId: string, uploads: seq<Upload>, ids: seq<string>, extracted: seq<Option<nat>>)
      requires Valid()
      requires |ids| == |uploads| && |extracted| == |uploads|
      modifies this
      ensures Valid()
      ensures files == DropEffect(old(files), folderId, uploads, ids, extracted).0
      ensures shown == old(shown) + DropEffect(old(files), folderId, uploads, ids, extracted).1
      ensures folders == old(folders) && selected == old(selected)
      ensures old(FlagsConsistent()) ==> FlagsConsistent()
      ensures old(Owned()) && folderId in folders ==> Owned()
    {
      for i := 0 to |uploads|
        invariant Valid()
        invariant folders == old(folders) && selected == old(selected)
        invariant old(FlagsConsistent()) ==> FlagsConsistent()
        invariant old(Owned()) && folderId in folders ==> Owned()
        invariant files == DropEffect(old(files), folderId, uploads[..i], ids[..i], extracted[..i]).0
        invariant shown == old(shown) + DropEffect(old(files), folderId, uploads[..i], ids[..i], extracted[..i]).1
      {
        assert uploads[..i + 1][..i] == uploads[..i] && ids[..i + 1][..i] == ids[..i]
               && extracted[..i + 1][..i] == extracted[..i];
        var added := ProcessFile(uploads[i], folderId, ids[i], extracted[i]);
      }
      assert uploads[..|uploads|] == uploads && ids[..|ids|] == ids && extracted[..|extracted|] == extracted;
    }

    /** A drop of several uploads on the selected folder: each is ingested in
        turn with its own fresh id and extraction outcome, which gives the
        table and the appended records of DropEffect. Nothing happens with
        no folder selected, nor for a directory drop, where the source
        expands the first item's entry only and none of the uploads goes
        through the ordinary path (src/App.tsx:365-384, 389-393). Every new
        record comes from an allowed upload for the selected folder, and
        every allowed upload whose id was not stored before is stored. */
    method OnDrop(uploads: seq<Upload>, ids: seq<string>, extracted: seq<Option<nat>>)
      requires Valid()
      requires |ids| == |uploads| && |extracted| == |uploads|
      modifies this
      ensures Valid()
      ensures old(selected).None? || DirectoryDrop(uploads) ==> files == old(files) && shown == old(shown)
      ensures old(selected).Some? && !DirectoryDrop(uploads) ==>
                files == DropEffect(old(files), old(selected).value.id, uploads, ids, extracted).0
                && shown == old(shown) + DropEffect(old(files), old(selected).value.id, uploads, ids, extracted).1
      ensures forall k :: k in old(files) ==> k in files && files[k] == old(files)[k]
      ensures forall k :: k in files && k !in old(files) ==>
                exists i :: 0 <= i < |ids| && ids[i] == k
                  && IngestRecord(uploads[i], old(selected).value.id, k, extracted[i]) == Some(files[k])
      ensures old(selected).Some? && !DirectoryDrop(uploads) ==>
                forall i :: 0 <= i < |ids| && uploads[i].mimeType in AllowedTypes && ids[i] !in old(files) ==>
                  ids[i] in files
      ensures folders == old(folders) && selected == old(selected)
      ensures old(FlagsConsistent()) ==> FlagsConsistent()
      ensures old(Owned()) ==> Owned()
    {
      if selected.None? || DirectoryDrop(uploads) {
        return;
      }
      var folderId := selected.value.id;
      IngestInTurn(folderId, uploads, ids, extracted);
      DropAppendsNewRecords(old(files), folderId, uploads, ids, extracted);
      DropRecordsFromUploads(old(files), folderId, uploads, ids, extracted);
      DropStoresAllowed(old(files), folderId, uploads, ids, extracted);
    }
  }

  /** The round trip of a dropped invoice through the trash: on a fresh store
      a folder is created and selected, a PDF is dropped on it and shows in
      its list; trashed, it leaves that list and shows in the trash folder's
      list; restored, it shows in the folder's list again and no longer in
      the trash folder's. */
  method TrashRoundTripScenario(u: Upload, folderId: string, fileId: string, amount: nat, now: int)
    returns (droppedShown: bool, trashedHidden: bool, trashedInTrash: bool, restoredShown: bool, restoredOutOfTrash: bool)
    requires u.mimeType == PdfMime && folderId != TrashId && folderId != ""
    ensures droppedShown && trashedHidden && trashedInTrash && restoredShown && restoredOutOfTrash
  {
    var m := new FileManager(map[], map[]);
    m.InitializeData();
    var added := m.AddFolder(Some("Clients"), folderId);
    var clients := m.folders[folderId];
    m.SelectFolder(clients);
    assert PdfMime in AllowedTypes && fileId !in m.files;
    added := m.ProcessFile(u, folderId, fileId, Some(amount));
    var record := m.files[fileId];
    droppedShown := record in m.shown;
    m.MoveToTrash(folderId, fileId, true, now);
    trashedHidden := forall f :: f in m.shown ==> f.id != fileId;
    m.SelectFolder(m.folders[TrashId]);
    trashedInTrash := m.files[fileId] in m.shown;
    m.RestoreFile(fileId);
    TrashRestoreRoundTrip(record, now);
    assert m.files[fileId] == record;
    m.SelectFolder(clients);
    restoredShown := record in m.shown;
    m.SelectFolder(m.folders[TrashId]);
    restoredOutOfTrash := forall f :: f in m.shown ==> f.id != fileId;
  }
}
