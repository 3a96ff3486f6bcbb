/** The checkpoint store as one caller sees it when nobody interferes: all names together, the name
  * check, and the three calls. */
module CheckpointStore {
  import opened Checkpoint

  type Name = string

  datatype CallResult = Done | InvalidName | DuplicateName | NotFound

  const MAX_NAME_LENGTH := 200

  predicate NameChar(c: char) {
    'a' <= c <= 'z' || 'A' <= c <= 'Z' || '0' <= c <= '9' || c == '_' || c == '-'
  }

  /** `validate_name`. */
  predicate ValidName(name: Name) {
    name != "" && |name| <= MAX_NAME_LENGTH && forall i :: 0 <= i < |name| ==> NameChar(name[i])
  }

  /** Exactly the names of 1 to 200 characters with code points of ASCII digits, capitals, small letters, the
    * hyphen and the underscore. */
  lemma ValidNamesAre(name: Name)
    ensures ValidName(name)
            <==> 0 < |name| <= 200 && forall c <- name ::
                   || 48 <= c as int <= 57 || 65 <= c as int <= 90 || 97 <= c as int <= 122
                   || c as int == 45 || c as int == 95
  {
    assert forall i :: 0 <= i < |name| ==> name[i] in name;
  }

  class Directories {
    var dirs: map<Name, Files>

    ghost predicate Valid()
      reads this
    {
      forall name <- dirs :: Shaped(dirs[name])
    }

    /** The files of a name; a missing directory reads as an empty one. */
    function FilesOf(name: Name): Files
      reads this
    {
      if name in dirs then dirs[name] else {}
    }

    ghost predicate InUse(name: Name)
      reads this
    {
      Active(FilesOf(name))
    }

    constructor ()
      ensures Valid() && dirs == map[]
    {
      dirs := map[];
    }

    /** `highest_generation`: the maximum over the entries, zero without any. */
    static method ReadHighest(files: Files) returns (g: nat)
      ensures forall f <- files :: f.n <= g
      ensures if files == {} then g == 0 else exists f :: f in files && f.n == g
    {
      g := 0;
      var todo := files;
      while todo != {}
        invariant todo <= files
        invariant forall f :: f in files - todo ==> f.n <= g
        invariant g == 0 || exists f :: f in files && f.n == g
        decreases todo
      {
        var f :| f in todo;
        if g < f.n {
          g := f.n;
        }
        todo := todo - {f};
      }
      assert files - todo == files;
    }

    /** In a directory of this protocol that maximum is the number of generations. */
    static lemma HighestIsTheGeneration(files: Files, g: nat)
      requires Shaped(files) && forall f <- files :: f.n <= g
      requires if files == {} then g == 0 else exists f :: f in files && f.n == g
      ensures Shape(files, g)
    {
      var n: nat :| Shape(files, n);
      if n >= 1 {
        assert Create(n) in files;
        assert Create(n).n <= g;
      }
      if f :| f in files && f.n == g {
        assert f == Create(g) || f == Delete(g);
      }
    }

    /** `create`: it succeeds exactly when the name is valid and free, and then the next generation is
      * the only file added; no other name is touched. */
    method CreateCheckpoint(name: Name) returns (r: CallResult)
      requires Valid()
      modifies this
      ensures Valid()
      ensures r == if !ValidName(name) then InvalidName else if old(InUse(name)) then DuplicateName else Done
      ensures r == Done ==> exists n: nat ::
                Shape(old(FilesOf(name)), n) && FilesOf(name) == old(FilesOf(name)) + {Create(n + 1)}
      ensures r == Done ==> InUse(name)
      ensures r != Done ==> FilesOf(name) == old(FilesOf(name))
      ensures forall other :: other != name ==> FilesOf(other) == old(FilesOf(other))
    {
      if !ValidName(name) {
        return InvalidName;
      }
      assert Shape({}, 0);
      dirs := dirs[name := FilesOf(name)];
      var files := FilesOf(name);
      var g := ReadHighest(files);
      HighestIsTheGeneration(files, g);
      ShapeFacts(files, g);
      var target := if g == 0 then 1 else if Delete(g) in files then g + 1 else g;
      if Create(target) in files {
        return DuplicateName;
      }
      CreateGrows(files, g);
      assert Shape(files + {Create(target)}, g + 1);
      dirs := dirs[name := files + {Create(target)}];
      r := Done;
    }

    /** `delete`: it succeeds exactly when the name is valid and in use, and then that generation's
      * tombstone is the only file added. */
    method DeleteCheckpoint(name: Name) returns (r: CallResult)
      requires Valid()
      modifies this
      ensures Valid()
      ensures r == if !ValidName(name) then InvalidName else if !old(InUse(name)) then NotFound else Done
      ensures r == Done ==> exists n: nat ::
                Shape(old(FilesOf(name)), n) && FilesOf(name) == old(FilesOf(name)) + {Delete(n)}
      ensures r == Done ==> !InUse(name)
      ensures r != Done ==> FilesOf(name) == old(FilesOf(name))
      ensures forall other :: other != name ==> FilesOf(other) == old(FilesOf(other))
    {
      if !ValidName(name) {
        return InvalidName;
      }
      assert Shape({}, 0);
      var files := FilesOf(name);
      assert Shaped(files);
      var g := ReadHighest(files);
      HighestIsTheGeneration(files, g);
      ShapeFacts(files, g);
      if g == 0 || Delete(g) in files {
        return NotFound;
      }
      DeleteGrows(files, g);
      dirs := dirs[name := files + {Delete(g)}];
      r := Done;
    }

    /** `list`: exactly the names in use. */
    method ListCheckpoints() returns (names: set<Name>)
      requires Valid()
      ensures forall name :: name in names <==> InUse(name)
    {
      names := {};
      var todo := dirs.Keys;
      while todo != {}
        invariant todo <= dirs.Keys
        invariant forall name :: name in names <==> name in dirs.Keys - todo && InUse(name)
        decreases todo
      {
        var name :| name in todo;
        var g := ReadHighest(dirs[name]);
        HighestIsTheGeneration(dirs[name], g);
        ShapeFacts(dirs[name], g);
        if g != 0 && Delete(g) !in dirs[name] {
          names := names + {name};
        }
        todo := todo - {name};
      }
      assert forall name :: InUse(name) ==> name in dirs.Keys;
    }
  }
}
