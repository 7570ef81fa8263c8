/**
  The module loader: parsing a file loads what it imports first, and the set of modules being
  loaded is handed down so that an import of one of them can be refused as a cycle.
*/
module Loader {
  import opened ImportGraph

  datatype LoadError =
    | CycleFound(imported: Key, importer: Key)
    | ModuleNotFound(name: Key)
    | FileNotFound

  /** The module being parsed is reached from the root by `path`, all of which, but for the root, is disallowed. */
  ghost predicate OnPath(files: Files, root: Key, path: seq<Key>, id: Key, disallowed: set<Key>) {
    WalkTo(files, root, path, id) && forall k :: k in disallowed <==> k in path[1..]
  }

  /** The first error logged names a real cycle or a module that is really missing. */
  ghost predicate Truthful(files: Files, root: Key, errors: seq<LoadError>) {
    errors == [] ||
    match errors[0]
    case CycleFound(imported, importer) =>
      Cyclic(files, root) && Reachable(files, root, importer) && importer in files && imported in files[importer]
    case ModuleNotFound(name) => Reachable(files, root, name) && name !in files
    case FileNotFound => root !in files
  }

  class Program {
    /** What is on disk. */
    const files: Files

    /** Parsed modules, with their imports. */
    var modules: map<Key, seq<Key>>

    /** Every file parse begun, and every module stored, in order. */
    ghost var parsed: seq<Key>
    ghost var stored: seq<Key>

    var errors: seq<LoadError>

    constructor (files: Files)
      ensures this.files == files && modules == map[] && parsed == [] && stored == [] && errors == []
    {
      this.files := files;
      modules, parsed, stored, errors := map[], [], [], [];
    }

    ghost predicate Consistent(root: Key)
      reads this
    {
      && ImportsFirst(files, stored) && Unrepeated(stored)
      && (forall k :: k in modules <==> k in stored)
      && (forall k :: k in modules ==> k in files && modules[k] == files[k])
      && (forall k :: k in stored ==> Reachable(files, root, k))
    }

    /** Parses one module; false when the file is not there or an error was logged. */
    method InnerParse(ghost root: Key, ghost path: seq<Key>, id: Key, disallowed: set<Key>) returns (ok: bool)
      requires Consistent(root) && errors == [] && id !in stored
      requires OnPath(files, root, path, id, disallowed)
      modifies this
      ensures ok ==> errors == [] && id in files && Consistent(root)
      ensures ok ==> Grew(old(parsed), old(stored), parsed, stored, multiset{})
      ensures ok ==> stored != [] && stored[|stored| - 1] == id
      ensures !ok ==> Truthful(files, root, errors) && (errors == [] ==> id !in files)
      decreases files.Keys - disallowed, if id in files then 2 else 0
    {
      hide ImportsFirst, Unrepeated, WalkTo, Cyclic, Grew, StoredBelow;
      if id !in files {
        return false;
      }
      parsed := parsed + [id];
      GrewFirst(old(parsed), stored, id, files[id]);
      var imports := files[id];
      var i := 0;
      while i < |imports|
        invariant 0 <= i <= |imports|
        invariant Consistent(root) && errors == [] && id !in stored
        invariant Grew(old(parsed), old(stored), parsed, stored, multiset{id})
        invariant StoredBelow(imports, i, stored)
      {
        var imported := imports[i];
        ExtendWalk(files, root, path, id, imported);
        if imported in disallowed {
          errors := errors + [CycleFound(imported, id)];
          ComesBack(files, root, path, id, imported);
          return false;
        }
        ghost var parsedBefore, storedBefore := parsed, stored;
        var found := GetModule(root, path, id, imported, disallowed);
        if !found {
          errors := errors + [ModuleNotFound(imported)];
          return false;
        }
        GrewTwice(old(parsed), old(stored), parsedBefore, storedBefore, parsed, stored, multiset{id});
        StoredBelowNext(imports, i, parsedBefore, storedBefore, parsed, stored);
        if stored != storedBefore {
          ImporterComesLater(files, stored, id);
        }
        i := i + 1;
      }
      StoredBelowAll(imports, stored);
      AppendImportsFirst(files, stored, id);
      GrewLast(old(parsed), old(stored), parsed, stored, id);
      modules := modules[id := imports];
      stored := stored + [id];
      ok := true;
    }

    /** A module that is loaded already, or else is parsed now. */
    method GetModule(ghost root: Key, ghost path: seq<Key>, ghost importer: Key, id: Key, disallowed: set<Key>)
      returns (ok: bool)
      requires Consistent(root) && errors == []
      requires OnPath(files, root, path, importer, disallowed)
      requires importer in files && id in files[importer] && id !in disallowed
      modifies this
      ensures ok ==> errors == [] && Consistent(root) && id in stored
      ensures ok ==> Grew(old(parsed), old(stored), parsed, stored, multiset{})
      ensures ok ==> stored == old(stored) || (stored != [] && stored[|stored| - 1] == id)
      ensures !ok ==> Truthful(files, root, errors) && (errors == [] ==> id !in files)
      decreases files.Keys - disallowed, 1
    {
      hide ImportsFirst, Unrepeated, Cyclic;
      if id in modules {
        return true;
      }
      var newIds := disallowed + {id};
      ExtendWalk(files, root, path, importer, id);
      assert (path + [id])[1..] == path[1..] + [id];
      ok := InnerParse(root, path + [id], id, newIds);
    }

    /** Loads a program.  It loads cleanly exactly when nothing reachable is missing and there is no import cycle;
        and when nothing is missing, what stops it is a cycle, and it says so.  After a clean load exactly the
        reachable modules are stored, imports before importers, each parsed once. */
    method ParseRoot(root: Key) returns (ok: bool)
      requires modules == map[] && parsed == [] && stored == [] && errors == []
      modifies this
      ensures ok <==> errors == []
      ensures ok <==> AllPresent(files, root) && !Cyclic(files, root)
      ensures AllPresent(files, root) ==> (Cyclic(files, root) <==> errors != [] && errors[0].CycleFound?)
      ensures ok ==> forall k :: Reachable(files, root, k) <==> k in stored
      ensures ok ==> forall k :: k in modules <==> k in stored
      ensures ok ==> forall k :: k in modules ==> k in files && modules[k] == files[k]
      ensures ok ==> ImportsFirst(files, stored) && Unrepeated(stored) && multiset(parsed) == multiset(stored)
    {
      assert WalkTo(files, root, [root], root);
      ok := InnerParse(root, [root], root, {});
      if !ok {
        errors := errors + [FileNotFound];
        FirstErrorTells(files, root, errors);
      } else {
        StoredIsAcyclic(files, stored, root);
        assert stored[0..] == stored;
      }
    }
  }

  /** Importing a module that is being loaded closes a cycle. */
  lemma ComesBack(files: Files, root: Key, path: seq<Key>, id: Key, imported: Key)
    requires WalkTo(files, root, path, id) && id in files && imported in files[id] && imported in path[1..]
    ensures Cyclic(files, root)
  {
    ExtendWalk(files, root, path, id, imported);
    var i :| 0 <= i < |path[1..]| && path[1..][i] == imported;
    assert Returns(files, root, path + [imported], i + 1);
  }

  /** What successful parsing has added since some earlier moment: modules, each parsed once, and the parses in
      `open` that have not ended. */
  ghost predicate Grew(
    parsedBefore: seq<Key>, storedBefore: seq<Key>, parsed: seq<Key>, stored: seq<Key>, open: multiset<Key>)
  {
    && storedBefore <= stored
    && multiset(parsed) == multiset(parsedBefore) + multiset(stored[|storedBefore|..]) + open
  }

  /** The first `n` imports are stored. */
  ghost predicate StoredBelow(imports: seq<Key>, n: nat, stored: seq<Key>)
    requires n <= |imports|
  {
    forall k :: 0 <= k < n ==> imports[k] in stored
  }

  lemma GrewFirst(parsed: seq<Key>, stored: seq<Key>, id: Key, imports: seq<Key>)
    ensures Grew(parsed, stored, parsed + [id], stored, multiset{id})
    ensures StoredBelow(imports, 0, stored)
  {
  }

  lemma GrewTwice(p0: seq<Key>, s0: seq<Key>, p1: seq<Key>, s1: seq<Key>, p2: seq<Key>, s2: seq<Key>,
                  open: multiset<Key>)
    requires Grew(p0, s0, p1, s1, open) && Grew(p1, s1, p2, s2, multiset{})
    ensures Grew(p0, s0, p2, s2, open)
  {
    assert s2[|s0|..] == s1[|s0|..] + s2[|s1|..];
  }

  lemma GrewLast(p0: seq<Key>, s0: seq<Key>, p1: seq<Key>, s1: seq<Key>, id: Key)
    requires Grew(p0, s0, p1, s1, multiset{id})
    ensures Grew(p0, s0, p1, s1 + [id], multiset{})
  {
    assert (s1 + [id])[|s0|..] == s1[|s0|..] + [id];
  }

  lemma StoredBelowNext(imports: seq<Key>, i: nat, p1: seq<Key>, s1: seq<Key>, p2: seq<Key>, s2: seq<Key>)
    requires i < |imports| && StoredBelow(imports, i, s1) && imports[i] in s2 && Grew(p1, s1, p2, s2, multiset{})
    ensures StoredBelow(imports, i + 1, s2)
  {
  }

  lemma StoredBelowAll(imports: seq<Key>, stored: seq<Key>)
    requires StoredBelow(imports, |imports|, stored)
    ensures forall k :: k in imports ==> k in stored
  {
  }

  lemma FirstErrorTells(files: Files, root: Key, errors: seq<LoadError>)
    requires Truthful(files, root, errors) && errors != []
    ensures Cyclic(files, root) || !AllPresent(files, root)
    ensures AllPresent(files, root) ==> errors[0].CycleFound?
  {
    if errors[0].FileNotFound? {
      assert WalkTo(files, root, [root], root);
    }
  }
}
