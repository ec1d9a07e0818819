/**
 * The record store: one JSON file per character, at
 * `characters/<user id>/<safe name>.json`. The directory tree is modelled
 * as a map from (user id, safe name) to the record held in that file.
 */
module Storage {
  import opened Wrappers
  import opened CharacterRecord

  /**
   * Python's `str.isalnum` on the characters a Russian-speaking user types:
   * ASCII letters and digits and the letters of the Cyrillic block.
   */
  predicate IsAlnum(c: char) {
    ('0' <= c <= '9') || ('A' <= c <= 'Z') || ('a' <= c <= 'z')
    || ('\U{0400}' <= c <= '\U{0481}') || ('\U{048A}' <= c <= '\U{04FF}')
  }

  /** The file-name stem of a character: each non-alphanumeric character becomes "_". */
  function SafeName(name: string): (r: string)
    ensures |r| == |name|
    ensures forall i :: 0 <= i < |name| && IsAlnum(name[i]) ==> r[i] == name[i]
    ensures forall i :: 0 <= i < |name| && !IsAlnum(name[i]) ==> r[i] == '_'
    ensures forall i :: 0 <= i < |r| ==> IsAlnum(r[i]) || r[i] == '_'
  {
    seq(|name|, i requires 0 <= i < |name| => if IsAlnum(name[i]) then name[i] else '_')
  }

  /** Sanitising twice is sanitising once, because "_" is not alphanumeric. */
  lemma SafeNameIdempotent(name: string)
    ensures SafeName(SafeName(name)) == SafeName(name)
  {
  }

  /** Two different names can share a file: the later save overwrites the earlier record. */
  lemma SafeNameCollides()
    ensures "a b" != "a_b" && SafeName("a b") == SafeName("a_b")
  {
    assert "a b"[1] != "a_b"[1];
  }

  /** Where a record lives: the owner's directory and the sanitised file name. */
  type Key = (UserId, string)

  function KeyOf(user: UserId, name: string): Key {
    (user, SafeName(name))
  }

  /** Every file holds a record owned by its directory's user, under its own sanitised name. */
  ghost predicate WellKeyed(files: map<Key, Record>) {
    forall k | k in files :: files[k].userId == Some(k.0) && SafeName(files[k].name) == k.1
  }

  /** `load_character`: the record in the file for `name`, or None when there is no such file. */
  function Find(files: map<Key, Record>, user: UserId, name: string): (r: Option<Record>)
    ensures r.Some? <==> KeyOf(user, name) in files
  {
    if KeyOf(user, name) in files then Some(files[KeyOf(user, name)]) else None
  }

  /** `save_character`: stamp the owner's id on the record and write it under its name. */
  function Stored(files: map<Key, Record>, user: UserId, data: Record): (r: map<Key, Record>)
    ensures WellKeyed(files) ==> WellKeyed(r)
    ensures r.Keys == files.Keys + {KeyOf(user, data.name)}
  {
    files[KeyOf(user, data.name) := data.(userId := Some(user))]
  }

  /** A save is seen by the next load of the same name, with the owner stamped on it. */
  lemma LoadAfterSave(files: map<Key, Record>, user: UserId, data: Record)
    ensures Find(Stored(files, user, data), user, data.name) == Some(data.(userId := Some(user)))
  {
  }

  /** A save touches no other file. */
  lemma SaveLeavesOthers(files: map<Key, Record>, user: UserId, data: Record, other: UserId, name: string)
    requires KeyOf(other, name) != KeyOf(user, data.name)
    ensures Find(Stored(files, user, data), other, name) == Find(files, other, name)
  {
  }

  /** After saving "a_b", loading "a b" returns that record: the names share one file. */
  lemma CollidingNamesShareRecord(files: map<Key, Record>, user: UserId, data: Record)
    requires data.name == "a_b"
    ensures Find(Stored(files, user, data), user, "a b") == Some(data.(userId := Some(user)))
  {
    SafeNameCollides();
  }

  /** After a delete, the name no longer loads; no other file changes. */
  lemma LoadAfterDelete(files: map<Key, Record>, user: UserId, name: string, other: UserId, otherName: string)
    ensures Find(files - {KeyOf(user, name)}, user, name) == None
    ensures KeyOf(other, otherName) != KeyOf(user, name) ==>
      Find(files - {KeyOf(user, name)}, other, otherName) == Find(files, other, otherName)
  {
  }

  /** The `CharacterStorage` object: its directory tree. */
  class CharacterStorage {
    var files: map<Key, Record>

    ghost predicate Valid()
      reads this
    {
      WellKeyed(files)
    }

    /** A store over an empty `characters` directory. */
    constructor ()
      ensures Valid() && files == map[]
    {
      files := map[];
    }

    /** `save_character`: always succeeds here (write failures are not modelled). */
    method SaveCharacter(user: UserId, data: Record) returns (ok: bool)
      requires Valid()
      modifies this
      ensures Valid() && ok
      ensures files == Stored(old(files), user, data)
    {
      files := files[KeyOf(user, data.name) := data.(userId := Some(user))];
      ok := true;
    }

    /** `load_character`: the record saved under this name, owned by `user`, or None. */
    method LoadCharacter(user: UserId, name: string) returns (r: Option<Record>)
      requires Valid()
      ensures r == Find(files, user, name)
      ensures r.Some? ==> r.value.userId == Some(user) && SafeName(r.value.name) == SafeName(name)
    {
      var key := KeyOf(user, name);
      if key in files {
        r := Some(files[key]);
      } else {
        r := None;
      }
    }

    /**
     * `get_user_characters`: every record in the user's directory, each once,
     * in an order the file system picks (`order` names the file of each).
     */
    method GetUserCharacters(user: UserId) returns (cs: seq<Record>, ghost order: seq<Key>)
      ensures |order| == |cs|
      ensures forall i, j :: 0 <= i < j < |order| ==> order[i] != order[j]
      ensures forall k :: k in order <==> k in files && k.0 == user
      ensures forall i :: 0 <= i < |cs| ==> order[i] in files && cs[i] == files[order[i]]
      ensures forall k :: k in files && k.0 == user ==> files[k] in cs
    {
      var pending := set k | k in files && k.0 == user;
      cs, order := [], [];
      while pending != {}
        invariant forall k :: k in pending ==> k in files && k.0 == user
        invariant forall k :: k in order <==> k in files && k.0 == user && k !in pending
        invariant |order| == |cs|
        invariant forall i, j :: 0 <= i < j < |order| ==> order[i] != order[j]
        invariant forall i :: 0 <= i < |cs| ==> order[i] in files && cs[i] == files[order[i]]
        decreases pending
      {
        var k :| k in pending;
        cs, order := cs + [files[k]], order + [k];
        pending := pending - {k};
      }
      forall k | k in files && k.0 == user ensures files[k] in cs {
        var i :| 0 <= i < |order| && order[i] == k;
        assert cs[i] == files[k];
      }
    }

    /** `delete_character`: removes the file and answers True, or answers False if there was none. */
    method DeleteCharacter(user: UserId, name: string) returns (ok: bool)
      requires Valid()
      modifies this
      ensures Valid()
      ensures ok == (KeyOf(user, name) in old(files))
      ensures files == old(files) - {KeyOf(user, name)}
    {
      var key := KeyOf(user, name);
      ok := key in files;
      files := files - {key};
    }
  }
}
