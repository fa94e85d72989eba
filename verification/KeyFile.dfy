/**
 The encrypted key file: one writer's view of it, and one uninterrupted update.

 Sealing is ideal (an AEAD in the sense of section 2.8 of RFC 8439): a sealed entry
 remembers the key, the associated data and the plaintext it was made from, and opens
 under that key and that data only. Key stretching is ideal too: one key per pair of
 passphrase and salt.
 */
module KeyFile {
  import opened Wrappers
  import Text

  type Salt = nat
  type Secret = seq<int>

  datatype Kek = Kek(passphrase: string, salt: Salt)

  datatype Sealed = Sealed(kek: Kek, aad: string, plain: Secret)

  type Entries = map<string, Sealed>

  /** The file as it lies on disk. */
  datatype Image = Image(salt: Salt, entries: Entries)

  /** Store a secret under a name, or remove the name. */
  datatype Edit = Edit(name: string, value: Option<Secret>)

  function ApplyEdit(kek: Kek, entries: Entries, e: Edit): Entries {
    if e.value.Some? then entries[e.name := Sealed(kek, e.name, e.value.value)] else entries - {e.name}
  }

  function ApplyEdits(kek: Kek, entries: Entries, edits: seq<Edit>): Entries
    decreases |edits|
  {
    if edits == [] then entries
    else ApplyEdit(kek, ApplyEdits(kek, entries, edits[..|edits| - 1]), edits[|edits| - 1])
  }

  datatype KeyFileError = Unreadable | Replaced | SealFailed | WriteFailed | SyncFailed | WrongPassphrase

  function OpenSealed(kek: Kek, aad: string, sealed: Sealed): Result<Secret, KeyFileError> {
    if sealed.kek == kek && sealed.aad == aad then Ok(sealed.plain) else Err(WrongPassphrase)
  }

  /** Reading one entry of a view: absent, or opened under its own name. */
  function DecryptEntry(kek: Kek, entries: Entries, name: string): Result<Option<Secret>, KeyFileError> {
    if name !in entries then Ok(None)
    else
      match OpenSealed(kek, name, entries[name])
      case Ok(plain) => Ok(Some(plain))
      case Err(e) => Err(e)
  }

  /** The entry was sealed under its own name with this key. */
  ghost predicate SealedWith(entries: Entries, name: string, kek: Kek) {
    name in entries && exists secret: Secret :: entries[name] == Sealed(kek, name, secret)
  }

  lemma OpensExactly(entries: Entries, name: string, kek: Kek)
    requires name in entries
    ensures DecryptEntry(kek, entries, name).Ok? <==> SealedWith(entries, name, kek)
  {
    var e := entries[name];
    if e.kek == kek && e.aad == name { assert e == Sealed(kek, name, e.plain); }
  }

  /** The entry a file lists first: names are kept in order. */
  predicate IsFirst(entries: Entries, name: string) {
    name in entries && forall other <- entries :: other == name || Text.Before(name, other)
  }

  ghost predicate FirstOf(names: set<string>, name: string) {
    name in names && forall other <- names :: other == name || Text.Before(name, other)
  }

  lemma {:induction false} FirstExists(names: set<string>) returns (name: string)
    requires names != {}
    ensures FirstOf(names, name)
    decreases |names|
  {
    name :| name in names;
    var rest := names - {name};
    if rest != {} {
      var next := FirstExists(rest);
      name := FirstOfTwo(names, name, next);
    } else {
      assert names == {name};
    }
  }

  lemma FirstOfTwo(names: set<string>, x: string, y: string) returns (name: string)
    requires x in names && FirstOf(names - {x}, y)
    ensures FirstOf(names, name)
  {
    Text.BeforeOrders(x, y, "");
    if Text.Before(x, y) {
      InFrontOfFirst(names - {x}, x, y);
      name := x;
    } else {
      name := y;
    }
    assert forall other <- names :: other == x || other in names - {x};
  }

  lemma InFrontOfFirst(rest: set<string>, x: string, y: string)
    requires Text.Before(x, y) && FirstOf(rest, y)
    ensures forall other <- rest :: Text.Before(x, other)
  {
    forall other | other in rest
      ensures Text.Before(x, other)
    {
      Text.BeforeOrders(x, y, other);
    }
  }

  lemma SomeFirst(entries: Entries)
    requires entries != map[]
    ensures exists name :: IsFirst(entries, name)
  {
    var name := FirstExists(entries.Keys);
    assert IsFirst(entries, name);
  }

  lemma OnlyFirst(entries: Entries, name: string)
    requires IsFirst(entries, name)
    ensures forall other :: IsFirst(entries, other) ==> other == name
  {
    forall other | IsFirst(entries, other)
      ensures other == name
    {
      Text.BeforeOrders(name, other, name);
    }
  }

  /** Where an update is made to fail, if anywhere. */
  datatype Fault = NoFault | FaultBeforeLock | FaultAtRefresh | FaultAtSeal(index: nat) | FaultAtWrite | FaultAtSync

  /** Everything one update decides: the file, the writer's view, and what it reports. */
  datatype Outcome = Outcome(file: Option<Image>, view: Entries, result: Result<(), KeyFileError>)

  function Updated(file: Option<Image>, kek: Kek, view: Entries, edits: seq<Edit>, fault: Fault): Outcome {
    if fault.FaultBeforeLock? then Outcome(file, view, Err(Unreadable))
    else if file.Some? && fault.FaultAtRefresh? then Outcome(file, view, Err(Unreadable))
    else if file.Some? && file.value.salt != kek.salt then Outcome(file, view, Err(Replaced))
    else
      var base := if file.Some? then file.value.entries else view;
      if fault.FaultAtSeal? && fault.index < |edits| && edits[fault.index].value.Some?
      then Outcome(file, ApplyEdits(kek, base, edits[..fault.index]), Err(SealFailed))
      else
        var after := ApplyEdits(kek, base, edits);
        if fault.FaultAtWrite? then Outcome(file, after, Err(WriteFailed))
        else if fault.FaultAtSync? then Outcome(Some(Image(kek.salt, after)), after, Err(SyncFailed))
        else Outcome(Some(Image(kek.salt, after)), after, Ok(()))
  }

  /** The place the key file lives at. */
  class Disk {
    var image: Option<Image>

    constructor ()
      ensures image == None
    {
      image := None;
    }
  }

  /** One writer's open key file. */
  class EncryptedFile {
    const kek: Kek
    var entries: Entries

    constructor (kek: Kek, entries: Entries)
      ensures this.kek == kek && this.entries == entries
    {
      this.kek, this.entries := kek, entries;
    }

    /** A stored file is opened with its own salt, and its first entry, if there is one, must
        have been sealed under its name with the resulting key. A missing file starts empty. */
    static method Open(disk: Disk, passphrase: string, freshSalt: Salt) returns (r: Result<EncryptedFile, KeyFileError>)
      ensures r.Ok? ==> fresh(r.value)
      ensures disk.image.None? ==> r.Ok? && r.value.kek == Kek(passphrase, freshSalt) && r.value.entries == map[]
      ensures disk.image.Some? ==>
                var entries, kek := disk.image.value.entries, Kek(passphrase, disk.image.value.salt);
                && (r.Ok? <==> forall name :: IsFirst(entries, name) ==> SealedWith(entries, name, kek))
                && (r.Ok? ==> r.value.kek == kek && r.value.entries == entries)
                && (r.Err? ==> entries != map[] && r.error == WrongPassphrase)
    {
      if disk.image.None? {
        var empty := new EncryptedFile(Kek(passphrase, freshSalt), map[]);
        return Ok(empty);
      }
      var kek := Kek(passphrase, disk.image.value.salt);
      var file := new EncryptedFile(kek, disk.image.value.entries);
      if file.entries != map[] {
        SomeFirst(file.entries);
        var name :| IsFirst(file.entries, name);
        OnlyFirst(file.entries, name);
        OpensExactly(file.entries, name, kek);
        var probed := DecryptEntry(kek, file.entries, name);
        if probed.Err? { return Err(probed.error); }
      }
      r := Ok(file);
    }

    method Update(disk: Disk, edits: seq<Edit>, fault: Fault) returns (result: Result<(), KeyFileError>)
      modifies this`entries, disk`image
      ensures Outcome(disk.image, entries, result) == Updated(old(disk.image), kek, old(entries), edits, fault)
    {
      if fault.FaultBeforeLock? { return Err(Unreadable); }
      if disk.image.Some? {
        if fault.FaultAtRefresh? { return Err(Unreadable); }
        if disk.image.value.salt != kek.salt { return Err(Replaced); }
        entries := disk.image.value.entries;
      }
      ghost var base := entries;
      for i := 0 to |edits|
        invariant disk.image == old(disk.image)
        invariant entries == ApplyEdits(kek, base, edits[..i])
        invariant fault.FaultAtSeal? && fault.index < i ==> edits[fault.index].value.None?
      {
        var e := edits[i];
        assert edits[..i + 1][..i] == edits[..i];
        if e.value.Some? {
          if fault == FaultAtSeal(i) { return Err(SealFailed); }
          entries := entries[e.name := Sealed(kek, e.name, e.value.value)];
        } else {
          entries := entries - {e.name};
        }
      }
      assert edits[..|edits|] == edits;
      result := Flush(disk, fault);
    }

    /** A private temporary is written in full, then renamed over the key file. */
    method Flush(disk: Disk, fault: Fault) returns (result: Result<(), KeyFileError>)
      modifies disk`image
      ensures fault.FaultAtWrite? ==> disk.image == old(disk.image) && result == Err(WriteFailed)
      ensures !fault.FaultAtWrite? ==>
                disk.image == Some(Image(kek.salt, entries))
                && result == if fault.FaultAtSync? then Err(SyncFailed) else Ok(())
    {
      var temporary := Image(kek.salt, entries);
      if fault.FaultAtWrite? { return Err(WriteFailed); }
      disk.image := Some(temporary);
      if fault.FaultAtSync? { return Err(SyncFailed); }
      result := Ok(());
    }

    /** An absent name reads as nothing; an entry sealed with this writer's key and under this
        very name yields its secret; every other entry is refused. */
    method Get(name: string) returns (r: Result<Option<Secret>, KeyFileError>)
      ensures r == Ok(None) <==> name !in entries
      ensures forall secret :: r == Ok(Some(secret)) <==> name in entries && entries[name] == Sealed(kek, name, secret)
      ensures r.Err? <==> name in entries && !(entries[name].kek == kek && entries[name].aad == name)
      ensures r.Err? ==> r.error == WrongPassphrase
    {
      r := DecryptEntry(kek, entries, name);
    }
  }

  // ----------------------------------------------------------------------
  // Reading after writing
  // ----------------------------------------------------------------------

  /** The last edit of a name in a batch. */
  ghost function LastEditOf(edits: seq<Edit>, name: string): Option<Edit>
    decreases |edits|
  {
    if edits == [] then None
    else if edits[|edits| - 1].name == name then Some(edits[|edits| - 1])
    else LastEditOf(edits[..|edits| - 1], name)
  }

  /** A view after a batch reads, under each name, the name's last edit; names the batch does
      not mention read as before. */
  lemma {:induction false} ReadsLastEdit(kek: Kek, entries: Entries, edits: seq<Edit>, name: string)
    ensures var last := LastEditOf(edits, name);
            DecryptEntry(kek, ApplyEdits(kek, entries, edits), name)
            == if last.Some? then Ok(last.value.value) else DecryptEntry(kek, entries, name)
    decreases |edits|
  {
    if edits != [] { ReadsLastEdit(kek, entries, edits[..|edits| - 1], name); }
  }

  /** After an update that succeeded, the writer and whoever opens the file with the same
      passphrase read the last edit of every name in the batch, and what the file held before
      under every other name. */
  lemma UpdateIsRead(file: Option<Image>, kek: Kek, view: Entries, edits: seq<Edit>, fault: Fault, name: string)
    requires Updated(file, kek, view, edits, fault).result.Ok?
    ensures var o, last := Updated(file, kek, view, edits, fault), LastEditOf(edits, name);
            && o.file == Some(Image(kek.salt, o.view))
            && DecryptEntry(kek, o.view, name)
               == if last.Some? then Ok(last.value.value)
                  else DecryptEntry(kek, if file.Some? then file.value.entries else view, name)
  {
    ReadsLastEdit(kek, if file.Some? then file.value.entries else view, edits, name);
  }
}
