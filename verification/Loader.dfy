/** Reading migrations from a directory of file pairs (internal/source). */
module Loader {
  import opened Text
  import opened Directives
  import opened Lexer
  import opened Splitter
  import opened Ids
  const UP_SUFFIX := ".up.sql"
  const DOWN_SUFFIX := ".down.sql"
  const SQL_EXT := ".sql"

  // ---------------------------------------------------------------------------------------------
  // One script, one pair

  datatype ScriptError =
    | BadHeader(header: HeaderError)
    | BadBlocks
    | IrreversibleUp
    | IrreversibleWithSQL
    | NoSQL

  function ParseScript(content: string, allowIrreversible: bool): Result<string, ScriptError> {
    var script := Trim(content);
    match ParseHeader(script)
    case Failure(e) => Failure(BadHeader(e))
    case Success(h) =>
      if Statements(h.body).Failure? then Failure(BadBlocks)
      else
        var irreversible := IRREVERSIBLE in h.directives;
        var hasSQL := Trim(h.body) != "";
        if irreversible && !allowIrreversible then Failure(IrreversibleUp)
        else if irreversible && hasSQL then Failure(IrreversibleWithSQL)
        else if irreversible then Success(script)
        else if !hasSQL then Failure(NoSQL)
        else Success(script)
  }

  function ParseMigrationPair(id: string, up: string, down: string): Result<Migration, ScriptError> {
    match ParseScript(up, false)
    case Failure(e) => Failure(e)
    case Success(u) =>
      match ParseScript(down, true)
      case Failure(e) => Failure(e)
      case Success(d) => Success(Migration(id, u, d))
  }

  /** A stored script that the executor will be able to read: its header parses and its body splits. */
  predicate IsReadable(script: string) {
    ParseHeader(script).Success? && Statements(ParseHeader(script).value.body).Success?
  }

  /** A script is accepted exactly when it is readable and is blank under its header if, and only if, it is irreversible. */
  lemma ParseScriptExact(content: string, allowIrreversible: bool)
    ensures var script := Trim(content);
            ParseScript(content, allowIrreversible).Success?
            <==> && IsReadable(script) && (IsIrreversible(script) ==> allowIrreversible)
                 && (IsIrreversible(script) <==> Trim(ParseHeader(script).value.body) == "")
    ensures ParseScript(content, allowIrreversible).Success? ==>
              ParseScript(content, allowIrreversible).value == Trim(content)
  {
    hide ParseHeader, Statements, Trim;
  }

  lemma NothingToSplit()
    ensures Statements("").Success?
  {
  }

  lemma BlankIsBlank()
    ensures Trim("") == ""
  {
  }

  /** `-- +migrate notransaction irreversible`: nothing rules out the one directive beside the other. */
  lemma BothDirectivesAccepted()
    ensures var script := HeaderFor([NO_TRANSACTION, IRREVERSIBLE]);
            ParseScript(script, true) == Success(script) && IsNoTransaction(script) && IsIrreversible(script)
  {
    hide ParseHeader, Trim, Statements;
    var names := [NO_TRANSACTION, IRREVERSIBLE];
    var script := HeaderFor(names);
    KnownWords();
    HeaderFields(names);
    NothingLate();
    HeaderReadsBack(names, "");
    NothingToSplit();
    ParseScriptExact(script, true);
    BlankIsBlank();
  }

  /** What every loaded migration satisfies, and what the executor relies on. */
  predicate IsSound(m: Migration) {
    && IsReadable(m.up) && IsReadable(m.down)
    && !IsIrreversible(m.up)
    && (IsIrreversible(m.down) <==> Trim(ParseHeader(m.down).value.body) == "")
    && Trim(ParseHeader(m.up).value.body) != ""
  }

  lemma TrimTwice(s: string)
    ensures Trim(Trim(s)) == Trim(s)
  {
    var w, v := TrimParts(s);
    TrimTrimmed(Trim(s));
  }

  /** Loading the stored text of a loaded migration again changes nothing. */
  lemma LoadedPairIsSound(id: string, up: string, down: string)
    requires ParseMigrationPair(id, up, down).Success?
    ensures var m := ParseMigrationPair(id, up, down).value;
            && m.id == id && IsSound(m)
            && ParseMigrationPair(id, m.up, m.down) == Success(m)
  {
    hide ParseHeader, Statements, Trim;
    TrimTwice(up);
    TrimTwice(down);
  }

  // ---------------------------------------------------------------------------------------------
  // The directory

  datatype Entry = Entry(name: string, isDir: bool)

  /** The lower-case forms of characters outside ASCII that have one. */
  const LOWER_CASE: imap<char, char>

  /** unicode.ToLower, for whatever table it uses. */
  function Lower(c: char): char {
    if 'A' <= c <= 'Z' then c + ' '
    else if !IsAscii(c) && c in LOWER_CASE then LOWER_CASE[c]
    else c
  }

  /** strings.ToLower. */
  function ToLower(s: string): string {
    if s == "" then "" else [Lower(s[0])] + ToLower(s[1..])
  }

  datatype Role = Skipped | UpHalf(id: string) | DownHalf(id: string) | Rejected

  /** What a directory entry is, going by its name. */
  function RoleOf(e: Entry): Role {
    if e.isDir || !HasSuffix(ToLower(e.name), SQL_EXT) then Skipped
    else if HasSuffix(e.name, UP_SUFFIX) then
      if e.name == UP_SUFFIX then Rejected else UpHalf(e.name[..|e.name| - |UP_SUFFIX|])
    else if HasSuffix(e.name, DOWN_SUFFIX) then
      if e.name == DOWN_SUFFIX then Rejected else DownHalf(e.name[..|e.name| - |DOWN_SUFFIX|])
    else Rejected
  }

  predicate IsHalf(r: Role) {
    r.UpHalf? || r.DownHalf?
  }

  datatype LoadError =
    | BadFileName(name: string)
    | DuplicateFile(name: string)
    | CaseCollision(a: string, b: string)
    | MissingHalf(id: string)
    | RootTooHigh(dir: string, name: string)
    | Unreadable(name: string)
    | BadScript(id: string, script: ScriptError)

  datatype Halves = Halves(ups: map<string, string>, downs: map<string, string>)

  function UpIds(entries: seq<Entry>): set<string> {
    set i | 0 <= i < |entries| && RoleOf(entries[i]).UpHalf? :: RoleOf(entries[i]).id
  }

  function DownIds(entries: seq<Entry>): set<string> {
    set i | 0 <= i < |entries| && RoleOf(entries[i]).DownHalf? :: RoleOf(entries[i]).id
  }

  /** The two maps name, for each identifier seen, the file of that half. */
  ghost predicate Indexes(entries: seq<Entry>, h: Halves) {
    && h.ups.Keys == UpIds(entries) && h.downs.Keys == DownIds(entries)
    && (forall id :: id in h.ups ==> h.ups[id] == id + UP_SUFFIX)
    && (forall id :: id in h.downs ==> h.downs[id] == id + DOWN_SUFFIX)
  }

  /** Identifiers that differ, but only in letter case. */
  predicate Collide(a: string, b: string) {
    a != b && ToLower(a) == ToLower(b)
  }

  /** Whether a directory is acceptable, as a property of its entries in no particular order. */
  ghost predicate IsAcceptable(entries: seq<Entry>) {
    && (forall i :: 0 <= i < |entries| ==> !RoleOf(entries[i]).Rejected?)
    && (forall i, j :: 0 <= i < j < |entries| && IsHalf(RoleOf(entries[i])) ==>
          RoleOf(entries[i]) != RoleOf(entries[j]))
    && (forall i, j :: 0 <= i < j < |entries| && IsHalf(RoleOf(entries[i])) && IsHalf(RoleOf(entries[j])) ==>
          !Collide(RoleOf(entries[i]).id, RoleOf(entries[j]).id))
  }

  lemma RoleName(e: Entry)
    ensures RoleOf(e).UpHalf? ==> e.name == RoleOf(e).id + UP_SUFFIX && RoleOf(e).id != ""
    ensures RoleOf(e).DownHalf? ==> e.name == RoleOf(e).id + DOWN_SUFFIX && RoleOf(e).id != ""
  {
    var n := |e.name|;
    if RoleOf(e).UpHalf? {
      assert e.name == e.name[..n - |UP_SUFFIX|] + e.name[n - |UP_SUFFIX|..];
    } else if RoleOf(e).DownHalf? {
      assert e.name == e.name[..n - |DOWN_SUFFIX|] + e.name[n - |DOWN_SUFFIX|..];
    }
  }

  /** The identifiers seen so far, by their lower-case form. */
  ghost predicate Folds(entries: seq<Entry>, k: nat, seen: map<string, string>)
    requires k <= |entries|
  {
    && (forall i :: 0 <= i < k && IsHalf(RoleOf(entries[i])) ==>
          ToLower(RoleOf(entries[i]).id) in seen && seen[ToLower(RoleOf(entries[i]).id)] == RoleOf(entries[i]).id)
    && (forall f :: f in seen ==>
          exists i :: 0 <= i < k && IsHalf(RoleOf(entries[i])) && RoleOf(entries[i]).id == seen[f]
                      && ToLower(seen[f]) == f)
  }

  /** The k-th entry clashes with none of those before it. */
  ghost predicate Fits(entries: seq<Entry>, k: nat)
    requires k < |entries|
  {
    var role := RoleOf(entries[k]);
    && !role.Rejected?
    && (forall i :: 0 <= i < k && IsHalf(role) && IsHalf(RoleOf(entries[i])) ==>
          RoleOf(entries[i]) != role && !Collide(RoleOf(entries[i]).id, role.id))
  }

  lemma GrowAcceptable(entries: seq<Entry>, k: nat)
    requires k < |entries|
    ensures IsAcceptable(entries[..k + 1]) <==> IsAcceptable(entries[..k]) && Fits(entries, k)
    ensures IsAcceptable(entries) ==> Fits(entries, k)
  {
    hide RoleOf, ToLower;
    var a, b := entries[..k], entries[..k + 1];
    assert forall i :: 0 <= i < k ==> a[i] == b[i] == entries[i];
    assert b[k] == entries[k];
  }

  /** The maps after the k-th entry. */
  function Added(h: Halves, e: Entry): Halves {
    match RoleOf(e)
    case UpHalf(id) => h.(ups := h.ups[id := e.name])
    case DownHalf(id) => h.(downs := h.downs[id := e.name])
    case _ => h
  }

  lemma GrowIds(entries: seq<Entry>, k: nat)
    requires k < |entries|
    ensures var role := RoleOf(entries[k]);
            && UpIds(entries[..k + 1]) == UpIds(entries[..k]) + (if role.UpHalf? then {role.id} else {})
            && DownIds(entries[..k + 1]) == DownIds(entries[..k]) + (if role.DownHalf? then {role.id} else {})
  {
    hide RoleOf;
    var a, b := entries[..k], entries[..k + 1];
    assert forall i :: 0 <= i < k ==> a[i] == b[i] == entries[i];
    assert b[k] == entries[k];
  }

  lemma GrowIndexes(entries: seq<Entry>, k: nat, h: Halves)
    requires k < |entries| && Indexes(entries[..k], h)
    ensures Indexes(entries[..k + 1], Added(h, entries[k]))
  {
    hide RoleOf, UpIds, DownIds;
    RoleName(entries[k]);
    GrowIds(entries, k);
  }

  lemma GrowFolds(entries: seq<Entry>, k: nat, seen: map<string, string>)
    requires k < |entries| && Folds(entries, k, seen) && Fits(entries, k)
    ensures var role := RoleOf(entries[k]);
            Folds(entries, k + 1, if IsHalf(role) then seen[ToLower(role.id) := role.id] else seen)
  {
    hide RoleOf, ToLower;
    var role := RoleOf(entries[k]);
    var now := if IsHalf(role) then seen[ToLower(role.id) := role.id] else seen;
    forall f | f in now
      ensures exists i :: 0 <= i < k + 1 && IsHalf(RoleOf(entries[i])) && RoleOf(entries[i]).id == now[f]
                          && ToLower(now[f]) == f
    {
      if IsHalf(role) && f == ToLower(role.id) {
        assert RoleOf(entries[k]).id == now[f];
      } else {
        var i :| 0 <= i < k && IsHalf(RoleOf(entries[i])) && RoleOf(entries[i]).id == seen[f]
                 && ToLower(seen[f]) == f;
      }
    }
  }

  /** The duplicate check of the loop finds exactly an equal half seen before. */
  lemma SeenBefore(entries: seq<Entry>, k: nat, role: Role)
    requires k <= |entries|
    ensures role.UpHalf? ==> (role.id in UpIds(entries[..k]) <==> exists i :: 0 <= i < k && RoleOf(entries[i]) == role)
    ensures role.DownHalf? ==>
              (role.id in DownIds(entries[..k]) <==> exists i :: 0 <= i < k && RoleOf(entries[i]) == role)
  {
    hide RoleOf;
    var a := entries[..k];
    assert forall i :: 0 <= i < k ==> a[i] == entries[i];
  }

  /** The case check of the loop finds exactly an identifier seen before that collides. */
  lemma FoldVerdict(entries: seq<Entry>, k: nat, seen: map<string, string>, id: string)
    requires k <= |entries| && Folds(entries, k, seen)
    ensures (ToLower(id) in seen && seen[ToLower(id)] != id)
            <==> exists i :: 0 <= i < k && IsHalf(RoleOf(entries[i])) && Collide(RoleOf(entries[i]).id, id)
  {
    hide RoleOf, ToLower;
  }

  /** The checks of the loop are exactly Fits. */
  lemma ChecksAreFits(entries: seq<Entry>, k: nat, seen: map<string, string>, h: Halves)
    requires k < |entries| && Folds(entries, k, seen) && Indexes(entries[..k], h)
    ensures var role := RoleOf(entries[k]);
            Fits(entries, k)
            <==> && !role.Rejected?
                 && (role.UpHalf? ==> role.id !in h.ups)
                 && (role.DownHalf? ==> role.id !in h.downs)
                 && (IsHalf(role) ==> !(ToLower(role.id) in seen && seen[ToLower(role.id)] != role.id))
  {
    hide RoleOf, ToLower, Folds, Collide;
    var role := RoleOf(entries[k]);
    if IsHalf(role) {
      SeenBefore(entries, k, role);
      FoldVerdict(entries, k, seen, role.id);
    }
  }

  lemma NothingYet(entries: seq<Entry>)
    ensures IsAcceptable(entries[..0]) && Indexes(entries[..0], Halves(map[], map[])) && Folds(entries, 0, map[])
  {
  }

  /** collectPairs. */
  method CollectPairs(entries: seq<Entry>) returns (r: Result<Halves, LoadError>)
    ensures r.Success? <==> IsAcceptable(entries)
    ensures r.Success? ==> Indexes(entries, r.value)
  {
    hide RoleOf, ToLower, IsAcceptable, Indexes, Folds, Fits;
    var ups: map<string, string>, downs: map<string, string> := map[], map[];
    var seenFolded: map<string, string> := map[];
    NothingYet(entries);
    for k := 0 to |entries|
      invariant IsAcceptable(entries[..k])
      invariant Indexes(entries[..k], Halves(ups, downs))
      invariant Folds(entries, k, seenFolded)
    {
      var e := entries[k];
      var role := RoleOf(e);
      GrowAcceptable(entries, k);
      GrowIndexes(entries, k, Halves(ups, downs));
      ChecksAreFits(entries, k, seenFolded, Halves(ups, downs));
      if role.Rejected? {
        return Failure(BadFileName(e.name));
      }
      if IsHalf(role) {
        var id := role.id;
        if role.UpHalf? {
          if id in ups {
            return Failure(DuplicateFile(e.name));
          }
          ups := ups[id := e.name];
        } else {
          if id in downs {
            return Failure(DuplicateFile(e.name));
          }
          downs := downs[id := e.name];
        }
        var folded := ToLower(id);
        if folded in seenFolded && seenFolded[folded] != id {
          return Failure(CaseCollision(seenFolded[folded], id));
        }
        GrowFolds(entries, k, seenFolded);
        seenFolded := seenFolded[folded := id];
      } else {
        GrowFolds(entries, k, seenFolded);
      }
    }
    assert entries[..|entries|] == entries;
    return Success(Halves(ups, downs));
  }

  // ---------------------------------------------------------------------------------------------
  // The migrations

  /** Both halves of id can be read and parsed. */
  predicate PairLoads(files: map<string, string>, id: string) {
    && id + UP_SUFFIX in files && id + DOWN_SUFFIX in files
    && ParseMigrationPair(id, files[id + UP_SUFFIX], files[id + DOWN_SUFFIX]).Success?
  }

  function LoadedPair(files: map<string, string>, id: string): (m: Migration)
    requires PairLoads(files, id)
    ensures m.id == id
  {
    ParseMigrationPair(id, files[id + UP_SUFFIX], files[id + DOWN_SUFFIX]).value
  }

  /** A file of a subdirectory that looks like an up script. */
  predicate LooksNested(e: Entry) {
    !e.isDir && HasSuffix(e.name, UP_SUFFIX)
  }

  /**
   There is an up script one level down. `nested` is what listing the subdirectories yields; one that cannot
   be read is not in it.
   */
  ghost predicate HasNested(entries: seq<Entry>, nested: map<string, seq<Entry>>) {
    exists e, c :: e in entries && e.isDir && e.name in nested && c in nested[e.name] && LooksNested(c)
  }

  /** explainEmptyRoot. */
  method ExplainEmptyRoot(entries: seq<Entry>, nested: map<string, seq<Entry>>) returns (err: Option<LoadError>)
    ensures err.Some? <==> HasNested(entries, nested)
    ensures err.Some? ==>
              && err.value.RootTooHigh? && Entry(err.value.dir, true) in entries && err.value.dir in nested
              && Entry(err.value.name, false) in nested[err.value.dir] && HasSuffix(err.value.name, UP_SUFFIX)
  {
    hide HasSuffix;
    for i := 0 to |entries|
      invariant forall e, c :: e in entries[..i] && e.isDir && e.name in nested && c in nested[e.name] ==>
                                 !LooksNested(c)
    {
      var e := entries[i];
      assert entries[..i + 1] == entries[..i] + [e];
      if !e.isDir || e.name !in nested {
        continue;
      }
      var candidates := nested[e.name];
      for j := 0 to |candidates|
        invariant forall c :: c in candidates[..j] ==> !LooksNested(c)
      {
        var c := candidates[j];
        assert candidates[..j + 1] == candidates[..j] + [c];
        if LooksNested(c) {
          assert e in entries && c in nested[e.name];
          return Some(RootTooHigh(e.name, c.name));
        }
      }
      assert candidates[..|candidates|] == candidates;
    }
    assert entries[..|entries|] == entries;
    return None;
  }

  /**
   Loading succeeds exactly for an acceptable directory in which every identifier has two good halves, unless
   it has none while a subdirectory has up scripts.
   */
  ghost predicate IsLoadable(entries: seq<Entry>, nested: map<string, seq<Entry>>, files: map<string, string>) {
    && IsAcceptable(entries) && UpIds(entries) == DownIds(entries)
    && (UpIds(entries) == {} ==> !HasNested(entries, nested))
    && forall id :: id in UpIds(entries) ==> PairLoads(files, id)
  }

  /** The list that loading yields. */
  ghost predicate IsLoad(entries: seq<Entry>, files: map<string, string>, ms: seq<Migration>) {
    && Ascending(MigrationIds(ms))
    && (forall id :: id in MigrationIds(ms) <==> id in UpIds(entries))
    && (forall i :: 0 <= i < |ms| ==> PairLoads(files, ms[i].id) && ms[i] == LoadedPair(files, ms[i].id))
  }

  /** The first k identifiers have been loaded. */
  ghost predicate LoadedSoFar(ids: seq<string>, k: nat, h: Halves, files: map<string, string>, ms: seq<Migration>)
    requires k <= |ids|
  {
    && MigrationIds(ms) == ids[..k]
    && (forall i :: 0 <= i < k ==> ids[i] in h.ups && ids[i] in h.downs)
    && (forall i :: 0 <= i < |ms| ==> PairLoads(files, ms[i].id) && ms[i] == LoadedPair(files, ms[i].id))
  }

  lemma NoneLoaded(ids: seq<string>, h: Halves, files: map<string, string>)
    ensures LoadedSoFar(ids, 0, h, files, [])
  {
  }

  lemma OneMoreLoaded(ids: seq<string>, k: nat, h: Halves, files: map<string, string>, ms: seq<Migration>)
    requires k < |ids| && LoadedSoFar(ids, k, h, files, ms)
    requires ids[k] in h.ups && ids[k] in h.downs && PairLoads(files, ids[k])
    ensures LoadedSoFar(ids, k + 1, h, files, ms + [LoadedPair(files, ids[k])])
  {
    hide PairLoads, LoadedPair;
    var m := LoadedPair(files, ids[k]);
    assert MigrationIds(ms + [m]) == ids[..k] + [ids[k]] == ids[..k + 1];
  }

  /** What the loop looks at for one identifier, under the names in the index. */
  lemma PairOf(entries: seq<Entry>, files: map<string, string>, h: Halves, id: string)
    requires Indexes(entries, h) && id in h.ups && id in h.downs
    ensures PairLoads(files, id)
            <==> h.ups[id] in files && h.downs[id] in files
                 && ParseMigrationPair(id, files[h.ups[id]], files[h.downs[id]]).Success?
    ensures PairLoads(files, id) ==>
              ParseMigrationPair(id, files[h.ups[id]], files[h.downs[id]]) == Success(LoadedPair(files, id))
  {
    hide ParseMigrationPair, UpIds, DownIds;
  }

  /** An identifier without two good halves is an error. */
  lemma MissesHalf(entries: seq<Entry>, nested: map<string, seq<Entry>>, files: map<string, string>, h: Halves, id: string)
    requires Indexes(entries, h) && (id in h.ups || id in h.downs)
    requires id !in h.ups || id !in h.downs || !PairLoads(files, id)
    ensures !IsLoadable(entries, nested, files)
  {
    hide PairLoads, UpIds, DownIds, IsAcceptable;
    assert id in h.ups <==> id in UpIds(entries);
    assert id in h.downs <==> id in DownIds(entries);
  }

  lemma AllPaired(ids: seq<string>, ups: set<string>, downs: set<string>, ms: seq<Migration>, files: map<string, string>)
    requires forall x :: x in ids <==> x in ups + downs
    requires forall i :: 0 <= i < |ids| ==> ids[i] in ups && ids[i] in downs
    requires MigrationIds(ms) == ids
    requires forall i :: 0 <= i < |ms| ==> PairLoads(files, ms[i].id)
    ensures ups == downs
    ensures forall id :: id in ups ==> PairLoads(files, id)
  {
    hide PairLoads;
    forall x
      ensures x in ups <==> x in downs
    {
      if x in ups + downs {
        assert x in ids;
      }
    }
    forall id | id in ups
      ensures PairLoads(files, id)
    {
      assert id in ids;
      var i :| 0 <= i < |ids| && ids[i] == id;
      assert ms[i].id == id;
    }
  }

  lemma AllLoaded(entries: seq<Entry>, nested: map<string, seq<Entry>>, files: map<string, string>, h: Halves,
                  ids: seq<string>, ms: seq<Migration>)
    requires h.ups.Keys == {} && h.downs.Keys == {} ==> !HasNested(entries, nested)
    requires IsAcceptable(entries) && Indexes(entries, h) && LoadedSoFar(ids, |ids|, h, files, ms)
    requires Ascending(ids) && forall x :: x in ids <==> x in h.ups.Keys + h.downs.Keys
    ensures IsLoadable(entries, nested, files) && IsLoad(entries, files, ms)
  {
    hide IsAcceptable, PairLoads, UpIds, DownIds, Ascending;
    assert ids[..|ids|] == ids;
    AllPaired(ids, h.ups.Keys, h.downs.Keys, ms, files);
  }

  lemma Unacceptable(entries: seq<Entry>, nested: map<string, seq<Entry>>, files: map<string, string>)
    requires !IsAcceptable(entries)
    ensures !IsLoadable(entries, nested, files)
  {
  }

  lemma RootedTooHigh(entries: seq<Entry>, nested: map<string, seq<Entry>>, files: map<string, string>, h: Halves)
    requires Indexes(entries, h) && h.ups.Keys == {} && h.downs.Keys == {} && HasNested(entries, nested)
    ensures !IsLoadable(entries, nested, files)
  {
    hide IsAcceptable, PairLoads, UpIds, DownIds, HasNested;
  }

  /** GetMigrations, given the directory listings and the files' contents. */
  method GetMigrations(entries: seq<Entry>, nested: map<string, seq<Entry>>, files: map<string, string>)
    returns (r: Result<seq<Migration>, LoadError>)
    ensures r.Success? <==> IsLoadable(entries, nested, files)
    ensures r.Success? ==> IsLoad(entries, files, r.value)
  {
    hide IsAcceptable, ParseMigrationPair, UpIds, DownIds, Ascending, IsLoadable, IsLoad, PairLoads, LoadedPair,
      LoadedSoFar, Indexes, HasNested;
    var collected := CollectPairs(entries);
    if collected.Failure? {
      Unacceptable(entries, nested, files);
      return Failure(collected.error);
    }
    ghost var h := collected.value;
    var ups, downs := collected.value.ups, collected.value.downs;
    if |ups| == 0 && |downs| == 0 {
      var err := ExplainEmptyRoot(entries, nested);
      if err.Some? {
        RootedTooHigh(entries, nested, files, h);
        return Failure(err.value);
      }
    }
    var ids := SortedIds(ups.Keys + downs.Keys);
    var ms: seq<Migration> := [];
    NoneLoaded(ids, h, files);
    for k := 0 to |ids|
      invariant LoadedSoFar(ids, k, h, files, ms)
    {
      var id := ids[k];
      assert id in ids;
      if id !in ups || id !in downs {
        MissesHalf(entries, nested, files, h, id);
        return Failure(MissingHalf(id));
      }
      var upName, downName := ups[id], downs[id];
      PairOf(entries, files, h, id);
      if !PairLoads(files, id) {
        MissesHalf(entries, nested, files, h, id);
      }
      if upName !in files {
        return Failure(Unreadable(upName));
      }
      if downName !in files {
        return Failure(Unreadable(downName));
      }
      var pair := ParseMigrationPair(id, files[upName], files[downName]);
      if pair.Failure? {
        return Failure(BadScript(id, pair.error));
      }
      OneMoreLoaded(ids, k, h, files, ms);
      ms := ms + [pair.value];
    }
    AllLoaded(entries, nested, files, h, ids, ms);
    return Success(ms);
  }

  // ---------------------------------------------------------------------------------------------
  // What a successful load guarantees

  ghost predicate SameEntries(a: seq<Entry>, b: seq<Entry>) {
    multiset(a) == multiset(b)
  }

  lemma EntryOf(entries: seq<Entry>, id: string) returns (k: nat)
    requires id in UpIds(entries)
    ensures k < |entries| && RoleOf(entries[k]) == UpHalf(id)
  {
    k :| 0 <= k < |entries| && RoleOf(entries[k]).UpHalf? && RoleOf(entries[k]).id == id;
  }

  /** Every loaded migration is sound, no two identifiers collide, and none is empty. */
  lemma LoadIsSound(entries: seq<Entry>, nested: map<string, seq<Entry>>, files: map<string, string>, ms: seq<Migration>)
    requires IsLoadable(entries, nested, files) && IsLoad(entries, files, ms)
    ensures forall i :: 0 <= i < |ms| ==> IsSound(ms[i]) && ms[i].id != ""
    ensures forall i, j :: 0 <= i < j < |ms| ==> Less(ms[i].id, ms[j].id) && !Collide(ms[i].id, ms[j].id)
  {
    hide RoleOf, IsSound, ToLower;
    var ids := MigrationIds(ms);
    forall i | 0 <= i < |ms|
      ensures IsSound(ms[i]) && ms[i].id != ""
    {
      var id := ms[i].id;
      LoadedPairIsSound(id, files[id + UP_SUFFIX], files[id + DOWN_SUFFIX]);
      assert ids[i] in ids;
      var e := EntryOf(entries, id);
      RoleName(entries[e]);
    }
    forall i, j | 0 <= i < j < |ms|
      ensures Less(ms[i].id, ms[j].id) && !Collide(ms[i].id, ms[j].id)
    {
      assert Less(ids[i], ids[j]);
      assert ids[i] in ids && ids[j] in ids;
      var a := EntryOf(entries, ids[i]);
      var b := EntryOf(entries, ids[j]);
      LessIrreflexive(ids[i]);
      assert a != b;
    }
  }

  // ---------------------------------------------------------------------------------------------
  // The order in which the directory is listed does not matter

  /** Two entries of the same half and identifier are the same entry. */
  lemma SameRoleSameEntry(e: Entry, f: Entry)
    requires IsHalf(RoleOf(e)) && RoleOf(e) == RoleOf(f)
    ensures e == f
  {
    RoleName(e);
    RoleName(f);
  }

  lemma {:induction false} Twice(s: seq<Entry>, e: Entry)
    ensures multiset(s)[e] >= 2 <==> exists i, j :: 0 <= i < j < |s| && s[i] == e && s[j] == e
    ensures multiset(s)[e] >= 1 <==> e in s
  {
    if s != [] {
      var n := |s| - 1;
      var t := s[..n];
      assert s == t + [s[n]];
      Twice(t, e);
      if multiset(s)[e] >= 2 {
        if s[n] == e {
          var i :| 0 <= i < |t| && t[i] == e;
          assert s[i] == e && s[n] == e && i < n;
        } else {
          var i, j :| 0 <= i < j < |t| && t[i] == e && t[j] == e;
          assert s[i] == e && s[j] == e;
        }
      }
      if i, j :| 0 <= i < j < |s| && s[i] == e && s[j] == e {
        assert t[i] == e;
        if j < n {
          assert t[j] == e;
        }
      }
    }
  }

  /** IsAcceptable, counting entries instead of indexing them. */
  ghost predicate IsAcceptableBag(bag: multiset<Entry>) {
    && (forall e :: e in bag ==> !RoleOf(e).Rejected?)
    && (forall e :: e in bag && IsHalf(RoleOf(e)) ==> bag[e] == 1)
    && (forall e, f :: e in bag && f in bag && IsHalf(RoleOf(e)) && IsHalf(RoleOf(f)) ==>
          !Collide(RoleOf(e).id, RoleOf(f).id))
  }

  lemma AcceptableByCount(entries: seq<Entry>)
    ensures IsAcceptable(entries) <==> IsAcceptableBag(multiset(entries))
  {
    hide RoleOf, ToLower;
    var bag := multiset(entries);
    if IsAcceptable(entries) {
      forall e | e in bag && IsHalf(RoleOf(e))
        ensures bag[e] == 1
      {
        Twice(entries, e);
      }
      forall e, f | e in bag && f in bag && IsHalf(RoleOf(e)) && IsHalf(RoleOf(f))
        ensures !Collide(RoleOf(e).id, RoleOf(f).id)
      {
        var i :| 0 <= i < |entries| && entries[i] == e;
        var j :| 0 <= j < |entries| && entries[j] == f;
      }
    }
    if IsAcceptableBag(bag) {
      forall i, j | 0 <= i < j < |entries| && IsHalf(RoleOf(entries[i]))
        ensures RoleOf(entries[i]) != RoleOf(entries[j])
      {
        Twice(entries, entries[i]);
        if RoleOf(entries[i]) == RoleOf(entries[j]) {
          SameRoleSameEntry(entries[i], entries[j]);
        }
      }
    }
  }

  lemma IdsOfMembers(a: seq<Entry>, b: seq<Entry>)
    requires forall e :: e in a ==> e in b
    ensures UpIds(a) <= UpIds(b) && DownIds(a) <= DownIds(b)
  {
    hide RoleOf;
    forall i | 0 <= i < |a|
      ensures exists j :: 0 <= j < |b| && b[j] == a[i]
    {
      assert a[i] in b;
    }
  }

  lemma SameMembers(a: seq<Entry>, b: seq<Entry>)
    requires SameEntries(a, b)
    ensures forall e :: e in a <==> e in b
  {
    forall e
      ensures e in a <==> e in b
    {
      assert e in multiset(a) <==> e in multiset(b);
    }
  }

  lemma SameIds(a: seq<Entry>, b: seq<Entry>)
    requires SameEntries(a, b)
    ensures UpIds(a) == UpIds(b) && DownIds(a) == DownIds(b)
  {
    hide RoleOf;
    SameMembers(a, b);
    IdsOfMembers(a, b);
    IdsOfMembers(b, a);
  }

  /** The same listings, in whatever order. */
  ghost predicate SameListings(a: map<string, seq<Entry>>, b: map<string, seq<Entry>>) {
    a.Keys == b.Keys && forall d :: d in a ==> SameEntries(a[d], b[d])
  }

  lemma SameNested(a: seq<Entry>, b: seq<Entry>, inA: map<string, seq<Entry>>, inB: map<string, seq<Entry>>)
    requires SameEntries(a, b) && SameListings(inA, inB) && HasNested(a, inA)
    ensures HasNested(b, inB)
  {
    hide SameEntries, LooksNested;
    var e, c :| e in a && e.isDir && e.name in inA && c in inA[e.name] && LooksNested(c);
    SameMembers(a, b);
    SameMembers(inA[e.name], inB[e.name]);
    assert e in b && c in inB[e.name];
  }

  lemma SameTheOtherWay(a: map<string, seq<Entry>>, b: map<string, seq<Entry>>)
    requires SameListings(a, b)
    ensures SameListings(b, a)
  {
  }

  /** Whether loading succeeds, and with what, does not depend on the order of the listings. */
  lemma LoadIgnoresOrder(a: seq<Entry>, b: seq<Entry>, inA: map<string, seq<Entry>>, inB: map<string, seq<Entry>>,
                         files: map<string, string>, x: seq<Migration>, y: seq<Migration>)
    requires SameEntries(a, b) && SameListings(inA, inB)
    requires IsLoadable(a, inA, files) ==> IsLoad(a, files, x)
    requires IsLoadable(b, inB, files) ==> IsLoad(b, files, y)
    ensures IsLoadable(a, inA, files) <==> IsLoadable(b, inB, files)
    ensures IsLoadable(a, inA, files) ==> x == y
  {
    hide IsAcceptable, UpIds, DownIds, PairLoads, LoadedPair, IsAcceptableBag, Ascending, HasNested, SameListings;
    AcceptableByCount(a);
    AcceptableByCount(b);
    SameIds(a, b);
    if HasNested(a, inA) {
      SameNested(a, b, inA, inB);
    }
    if HasNested(b, inB) {
      SameTheOtherWay(inA, inB);
      SameNested(b, a, inB, inA);
    }
    if IsLoadable(a, inA, files) {
      AscendingUnique(MigrationIds(x), MigrationIds(y));
      forall i | 0 <= i < |x|
        ensures x[i] == y[i]
      {
        assert MigrationIds(x)[i] == MigrationIds(y)[i];
      }
    }
  }

  // ---------------------------------------------------------------------------------------------
  // File names, letter by letter

  /** The name ends in ".sql", in whatever case. */
  predicate EndsInSql(name: string) {
    var n := |name|;
    n >= 4 && name[n - 4] == '.' && name[n - 3] in {'s', 'S'} && name[n - 2] in {'q', 'Q'} && name[n - 1] in {'l', 'L'}
  }

  /** The last four characters are ASCII, if there are so many. */
  predicate PlainEnd(name: string) {
    forall i :: 0 <= i < |name| && i >= |name| - 4 ==> IsAscii(name[i])
  }

  lemma {:induction false} LowerEach(s: string)
    ensures |ToLower(s)| == |s| && forall i :: 0 <= i < |s| ==> ToLower(s)[i] == Lower(s[i])
  {
    if s != "" {
      LowerEach(s[1..]);
    }
  }

  lemma LowerAscii(c: char)
    requires IsAscii(c)
    ensures Lower(c) == '.' <==> c == '.'
    ensures Lower(c) == 's' <==> c in {'s', 'S'}
    ensures Lower(c) == 'q' <==> c in {'q', 'Q'}
    ensures Lower(c) == 'l' <==> c in {'l', 'L'}
  {
  }

  lemma FourChars(a: char, b: char, c: char, d: char)
    ensures [a, b, c, d] == SQL_EXT <==> a == '.' && b == 's' && c == 'q' && d == 'l'
  {
    assert SQL_EXT == ['.', 's', 'q', 'l'];
  }

  lemma SqlEnding(name: string)
    requires PlainEnd(name)
    ensures HasSuffix(ToLower(name), SQL_EXT) <==> EndsInSql(name)
  {
    hide ToLower, Lower;
    LowerEach(name);
    var n, low := |name|, ToLower(name);
    if n >= 4 {
      assert low[n - 4..] == [low[n - 4], low[n - 3], low[n - 2], low[n - 1]];
      LowerAscii(name[n - 4]);
      LowerAscii(name[n - 3]);
      LowerAscii(name[n - 2]);
      LowerAscii(name[n - 1]);
      FourChars(low[n - 4], low[n - 3], low[n - 2], low[n - 1]);
    }
  }

  lemma SuffixIs(name: string, id: string, suffix: string)
    requires name == id + suffix
    ensures HasSuffix(name, suffix) && name[..|name| - |suffix|] == id && (name == suffix <==> id == "")
  {
  }

  lemma NotBoth(id: string)
    ensures !HasSuffix(id + ".down.sql", ".up.sql") && !HasSuffix(id + ".up.sql", ".down.sql")
  {
    var a, b := id + ".down.sql", id + ".up.sql";
    assert a[|a| - 5] == 'n' && b[|b| - 5] == 'p';
    assert ".up.sql"[2] == 'p' && ".down.sql"[4] == 'n';
  }

  lemma EndingsArePlain(id: string)
    ensures PlainEnd(id + ".up.sql") && EndsInSql(id + ".up.sql")
    ensures PlainEnd(id + ".down.sql") && EndsInSql(id + ".down.sql")
  {
    var a, b := id + ".up.sql", id + ".down.sql";
    assert a[|a| - 4] == '.' && a[|a| - 3] == 's' && a[|a| - 2] == 'q' && a[|a| - 1] == 'l';
    assert b[|b| - 4] == '.' && b[|b| - 3] == 's' && b[|b| - 2] == 'q' && b[|b| - 1] == 'l';
  }

  /** The names of files that are halves of migrations, and nothing else. */
  lemma HalvesByName(id: string)
    requires id != ""
    ensures RoleOf(Entry(id + ".up.sql", false)) == UpHalf(id)
    ensures RoleOf(Entry(id + ".down.sql", false)) == DownHalf(id)
  {
    hide HasSuffix, EndsInSql, PlainEnd, ToLower;
    NotBoth(id);
    EndingsArePlain(id);
    SqlEnding(id + ".up.sql");
    SqlEnding(id + ".down.sql");
    SuffixIs(id + ".up.sql", id, ".up.sql");
    SuffixIs(id + ".down.sql", id, ".down.sql");
  }

  /**
   Every entry by its name: `<id>.up.sql` and `<id>.down.sql` are the halves of `<id>`, any other name in `.sql` is
   refused, and directories and other names are skipped.
   */
  lemma RoleByName(e: Entry)
    ensures e.isDir ==> RoleOf(e) == Skipped
    ensures forall id :: RoleOf(e) == UpHalf(id) <==> !e.isDir && id != "" && e.name == id + ".up.sql"
    ensures forall id :: RoleOf(e) == DownHalf(id) <==> !e.isDir && id != "" && e.name == id + ".down.sql"
    ensures !e.isDir && PlainEnd(e.name) ==> (RoleOf(e) == Skipped <==> !EndsInSql(e.name))
  {
    hide HasSuffix, ToLower, EndsInSql, PlainEnd;
    RoleName(e);
    if PlainEnd(e.name) {
      SqlEnding(e.name);
    }
    forall id
      ensures RoleOf(e) == UpHalf(id) <==> !e.isDir && id != "" && e.name == id + ".up.sql"
      ensures RoleOf(e) == DownHalf(id) <==> !e.isDir && id != "" && e.name == id + ".down.sql"
    {
      if id != "" {
        HalvesByName(id);
      }
    }
  }

  /** Each half of a loaded migration is the trimmed text of its own file. */
  lemma TextsOfFiles(entries: seq<Entry>, files: map<string, string>, ms: seq<Migration>)
    requires IsLoad(entries, files, ms)
    ensures forall m :: m in ms ==>
              && m.id + ".up.sql" in files && m.up == Trim(files[m.id + ".up.sql"])
              && m.id + ".down.sql" in files && m.down == Trim(files[m.id + ".down.sql"])
  {
    hide Trim, ParseHeader, Statements;
    forall m | m in ms
      ensures m.id + ".up.sql" in files && m.up == Trim(files[m.id + ".up.sql"])
      ensures m.id + ".down.sql" in files && m.down == Trim(files[m.id + ".down.sql"])
    {
      var i :| 0 <= i < |ms| && ms[i] == m;
      assert PairLoads(files, ms[i].id) && ms[i] == LoadedPair(files, ms[i].id);
    }
  }

  lemma IdsByName(entries: seq<Entry>, id: string)
    ensures id in UpIds(entries) <==> id != "" && Entry(id + ".up.sql", false) in entries
    ensures id in DownIds(entries) <==> id != "" && Entry(id + ".down.sql", false) in entries
  {
    hide RoleOf;
    forall i | 0 <= i < |entries|
      ensures RoleOf(entries[i]) == UpHalf(id) <==> id != "" && entries[i] == Entry(id + ".up.sql", false)
      ensures RoleOf(entries[i]) == DownHalf(id) <==> id != "" && entries[i] == Entry(id + ".down.sql", false)
    {
      RoleByName(entries[i]);
    }
    if id in UpIds(entries) {
      var i :| 0 <= i < |entries| && RoleOf(entries[i]).UpHalf? && RoleOf(entries[i]).id == id;
      assert entries[i] in entries && RoleOf(entries[i]) == UpHalf(id);
    }
    if id in DownIds(entries) {
      var i :| 0 <= i < |entries| && RoleOf(entries[i]).DownHalf? && RoleOf(entries[i]).id == id;
      assert entries[i] in entries && RoleOf(entries[i]) == DownHalf(id);
    }
    if id != "" && Entry(id + ".up.sql", false) in entries {
      var i :| 0 <= i < |entries| && entries[i] == Entry(id + ".up.sql", false);
      assert RoleOf(entries[i]) == UpHalf(id);
    }
    if id != "" && Entry(id + ".down.sql", false) in entries {
      var i :| 0 <= i < |entries| && entries[i] == Entry(id + ".down.sql", false);
      assert RoleOf(entries[i]) == DownHalf(id);
    }
  }

  /** And the migrations are those that have such files in the directory. */
  lemma NamesOfFiles(entries: seq<Entry>, nested: map<string, seq<Entry>>, files: map<string, string>, ms: seq<Migration>)
    requires IsLoadable(entries, nested, files) && IsLoad(entries, files, ms)
    ensures forall id :: id in MigrationIds(ms) <==> id != "" && Entry(id + ".up.sql", false) in entries
    ensures forall id :: id in MigrationIds(ms) <==> id != "" && Entry(id + ".down.sql", false) in entries
  {
    hide IsAcceptable, PairLoads, RoleOf, HasNested;
    forall id
      ensures id in UpIds(entries) <==> id != "" && Entry(id + ".up.sql", false) in entries
      ensures id in DownIds(entries) <==> id != "" && Entry(id + ".down.sql", false) in entries
    {
      IdsByName(entries, id);
    }
  }

  /** Identifiers that differ in the case of one ASCII letter collide; identical ones do not. */
  lemma CaseCollides(p: string, c: char, d: char, s: string)
    requires 'a' <= c <= 'z' && d as int == c as int - 32
    ensures Collide(p + [c] + s, p + [d] + s) && Collide(p + [d] + s, p + [c] + s) && !Collide(p, p)
  {
    var a, b := p + [c] + s, p + [d] + s;
    LowerEach(a);
    LowerEach(b);
    assert Lower(c) == Lower(d) == c;
    assert a[|p|] == c && b[|p|] == d;
    assert ToLower(a) == ToLower(b);
  }
}
