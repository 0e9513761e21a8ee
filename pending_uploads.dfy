/**
 * The list model behind the "pending uploads" view of the settings UI:
 * one row per rich core waiting to be uploaded, newest first. setData
 * reconciles the rows with a fresh list of core-file paths.
 *
 * The file-name parser, strsignal() and a file's creation time are
 * supplied as functions (Collaborators); dates are ordered integers.
 */
module PendingUploads {
  import opened Common
  import opened RichCore

  /** One row: the crashed application, its PID, the signal's name, the core's path and creation time. */
  datatype Item = Item(applicationName: string, pid: int, signal: string, filePath: string, dateCreated: int)

  datatype Role = Application | PID | Signal | FilePath | DateCreated | OtherRole(code: int)

  /** What the model answers for a row and a role. */
  datatype Value = Text(text: string) | Number(number: int) | Date(date: int) | Invalid

  /** The outside functions a new row is built from. */
  datatype Collaborators = Collaborators(
    parse: string -> CrashInfo,   // parseCrashInfoFromFilename
    signalName: int -> string,    // strsignal
    created: string -> int)       // the file's creation time

  // ---------------------------------------------------------------------
  // Reading rows
  // ---------------------------------------------------------------------

  /** The field of `item` a known role selects; Invalid for any other role. */
  function ItemData(item: Item, role: Role): (v: Value)
    ensures role == Application ==> v == Text(item.applicationName)
    ensures role == PID ==> v == Number(item.pid)
    ensures role == Signal ==> v == Text(item.signal)
    ensures role == FilePath ==> v == Text(item.filePath)
    ensures role == DateCreated ==> v == Date(item.dateCreated)
    ensures role.OtherRole? ==> v == Invalid
  {
    match role
    case Application => Text(item.applicationName)
    case PID => Number(item.pid)
    case Signal => Text(item.signal)
    case FilePath => Text(item.filePath)
    case DateCreated => Date(item.dateCreated)
    case OtherRole(_) => Invalid
  }

  /** The names the view uses for the five roles. */
  function RoleNameTable(): (names: map<Role, string>)
    ensures names.Keys == {Application, PID, Signal, FilePath, DateCreated}
    ensures forall a, b :: a in names && b in names && names[a] == names[b] ==> a == b
  {
    map[Application := "application", PID := "pid", Signal := "signal",
        FilePath := "filePath", DateCreated := "dateCreated"]
  }

  /** A role has a name exactly when rows answer it. */
  lemma NamedRolesAreAnswered(item: Item, role: Role)
    ensures role in RoleNameTable() <==> ItemData(item, role) != Invalid
  {
  }

  // ---------------------------------------------------------------------
  // Sequences of paths and rows
  // ---------------------------------------------------------------------

  function PathsOf(items: seq<Item>): (paths: seq<string>)
    ensures |paths| == |items|
    ensures forall k :: 0 <= k < |items| ==> paths[k] == items[k].filePath
  {
    seq(|items|, k requires 0 <= k < |items| => items[k].filePath)
  }

  lemma PathsOfConcat(a: seq<Item>, b: seq<Item>)
    ensures PathsOf(a + b) == PathsOf(a) + PathsOf(b)
  {
    assert forall k :: 0 <= k < |a + b| ==> PathsOf(a + b)[k] == (PathsOf(a) + PathsOf(b))[k];
  }

  /** The first position of `x` in `s`, or -1 (QStringList::indexOf). */
  function IndexOf(s: seq<string>, x: string): (r: int)
    ensures -1 <= r < |s|
    ensures r == -1 <==> x !in s
    ensures r >= 0 ==> s[r] == x && x !in s[..r]
  {
    if s == [] then -1
    else if s[0] == x then 0
    else
      var i := IndexOf(s[1..], x);
      assert s[1..][..if i >= 0 then i else 0] == s[1..if i >= 0 then i + 1 else 1];
      if i == -1 then -1 else i + 1
  }

  function RemoveAt<T>(s: seq<T>, i: nat): (r: seq<T>)
    requires i < |s|
    ensures |r| == |s| - 1
    ensures multiset(r) + multiset{s[i]} == multiset(s)
  {
    assert s == s[..i] + [s[i]] + s[i + 1..];
    s[..i] + s[i + 1..]
  }

  /** Removing one element keeps the others in their order, around the gap. */
  lemma RemoveAtKeepsOrder<T>(s: seq<T>, i: nat)
    requires i < |s|
    ensures RemoveAt(s, i)[..i] == s[..i] && RemoveAt(s, i)[i..] == s[i + 1..]
  {
  }

  /** `a` is `b` with some elements left out: `b`'s order is kept. */
  predicate IsSubsequence<T(==)>(a: seq<T>, b: seq<T>)
    decreases |b|
  {
    if a == [] then true
    else if b == [] then false
    else if a[0] == b[0] then IsSubsequence(a[1..], b[1..])
    else IsSubsequence(a, b[1..])
  }

  lemma {:induction false} SubsequenceCons<T>(a: seq<T>, b: seq<T>, x: T)
    requires IsSubsequence(a, b)
    ensures IsSubsequence(a, [x] + b)
    decreases |b|, 1
  {
    if a != [] {
      assert ([x] + b)[1..] == b;
      if a[0] == x {
        SubsequenceDropHead(a, b);
      }
    }
  }

  lemma {:induction false} SubsequenceDropHead<T>(a: seq<T>, b: seq<T>)
    requires a != [] && IsSubsequence(a, b)
    ensures IsSubsequence(a[1..], b)
    decreases |b|, 0
  {
    if a[0] == b[0] {
      SubsequenceCons(a[1..], b[1..], b[0]);
      assert [b[0]] + b[1..] == b;
    } else {
      SubsequenceDropHead(a, b[1..]);
      SubsequenceCons(a[1..], b[1..], b[0]);
      assert [b[0]] + b[1..] == b;
    }
  }

  lemma {:induction false} SubsequenceElements<T>(a: seq<T>, b: seq<T>)
    requires IsSubsequence(a, b)
    ensures forall x :: x in a ==> x in b
    decreases |b|
  {
    if a != [] {
      if a[0] == b[0] {
        SubsequenceElements(a[1..], b[1..]);
        assert forall x :: x in a ==> x == a[0] || x in a[1..];
      } else {
        SubsequenceElements(a, b[1..]);
      }
    }
  }

  /** Rows ordered newest first, by creation time. */
  predicate NewestFirst(items: seq<Item>) {
    forall i, j :: 0 <= i < j < |items| ==> items[i].dateCreated >= items[j].dateCreated
  }

  /** Leaving rows out of a newest-first list keeps it newest first. */
  lemma {:induction false} SubsequenceNewestFirst(a: seq<Item>, b: seq<Item>)
    requires IsSubsequence(a, b) && NewestFirst(b)
    ensures NewestFirst(a)
    decreases |b|
  {
    if a != [] {
      assert NewestFirst(b[1..]);
      if a[0] == b[0] {
        SubsequenceNewestFirst(a[1..], b[1..]);
        SubsequenceElements(a[1..], b[1..]);
        forall j | 0 < j < |a| ensures a[0].dateCreated >= a[j].dateCreated {
          assert a[j] == a[1..][j - 1];
          assert a[j] in b[1..];
        }
      } else {
        SubsequenceNewestFirst(a, b[1..]);
      }
    }
  }

  // ---------------------------------------------------------------------
  // setData, phase one: drop the rows whose path is gone
  // ---------------------------------------------------------------------

  /** The rows kept by the removal pass, and the input paths no kept row consumed. */
  datatype Reconciled = Reconciled(kept: seq<Item>, unmatched: seq<string>)

  /**
   * The removal pass: rows are visited in order; a row whose path still
   * occurs among the unconsumed input paths is kept and consumes the first
   * such occurrence, any other row is dropped.
   */
  function KeepMatched(contents: seq<Item>, paths: seq<string>): (r: Reconciled)
    ensures |r.kept| + |r.unmatched| == |paths|
    decreases |contents|
  {
    if contents == [] then
      Reconciled([], paths)
    else
      var i := IndexOf(paths, contents[0].filePath);
      if i == -1 then
        KeepMatched(contents[1..], paths)
      else
        var rest := KeepMatched(contents[1..], RemoveAt(paths, i));
        Reconciled([contents[0]] + rest.kept, rest.unmatched)
  }

  /** Every input path is either consumed by a kept row or left unmatched, multiplicities included. */
  lemma {:induction false} KeepMatchedPaths(contents: seq<Item>, paths: seq<string>)
    ensures var r := KeepMatched(contents, paths);
      multiset(PathsOf(r.kept)) + multiset(r.unmatched) == multiset(paths)
    decreases |contents|
  {
    if contents != [] {
      var i := IndexOf(paths, contents[0].filePath);
      if i == -1 {
        KeepMatchedPaths(contents[1..], paths);
      } else {
        var rest := KeepMatched(contents[1..], RemoveAt(paths, i));
        KeepMatchedPaths(contents[1..], RemoveAt(paths, i));
        PathsOfConcat([contents[0]], rest.kept);
        assert PathsOf([contents[0]]) == [paths[i]];
      }
    }
  }

  /** The removal pass never reorders rows. */
  lemma {:induction false} KeepMatchedOrder(contents: seq<Item>, paths: seq<string>)
    ensures IsSubsequence(KeepMatched(contents, paths).kept, contents)
    decreases |contents|
  {
    if contents != [] {
      var i := IndexOf(paths, contents[0].filePath);
      if i == -1 {
        KeepMatchedOrder(contents[1..], paths);
        SubsequenceCons(KeepMatched(contents[1..], paths).kept, contents[1..], contents[0]);
        assert [contents[0]] + contents[1..] == contents;
      } else {
        var rest := KeepMatched(contents[1..], RemoveAt(paths, i));
        KeepMatchedOrder(contents[1..], RemoveAt(paths, i));
        assert ([contents[0]] + rest.kept)[1..] == rest.kept;
      }
    }
  }

  /**
   * A path some kept row could still have consumed: then no row of that
   * path was dropped, whether or not rows share paths.
   */
  lemma {:induction false} UnconsumedPathKeepsAllRows(contents: seq<Item>, paths: seq<string>, x: string)
    ensures var r := KeepMatched(contents, paths);
      x in r.unmatched ==> multiset(PathsOf(r.kept))[x] == multiset(PathsOf(contents))[x]
    decreases |contents|
  {
    if contents != [] {
      var i := IndexOf(paths, contents[0].filePath);
      if i == -1 {
        UnconsumedPathKeepsAllRows(contents[1..], paths, x);
        UnconsumedDropCase(contents, paths, x);
      } else {
        UnconsumedPathKeepsAllRows(contents[1..], RemoveAt(paths, i), x);
        UnconsumedKeepCase(contents, paths, i, x);
      }
    }
  }

  lemma UnconsumedDropCase(contents: seq<Item>, paths: seq<string>, x: string)
    requires contents != [] && contents[0].filePath !in paths
    requires var rest := KeepMatched(contents[1..], paths);
      x in rest.unmatched ==> multiset(PathsOf(rest.kept))[x] == multiset(PathsOf(contents[1..]))[x]
    ensures var r := KeepMatched(contents, paths);
      x in r.unmatched ==> multiset(PathsOf(r.kept))[x] == multiset(PathsOf(contents))[x]
  {
    var r := KeepMatched(contents, paths);
    if x in r.unmatched {
      var tail := contents[1..];
      assert IndexOf(paths, contents[0].filePath) == -1;
      assert r == KeepMatched(tail, paths);
      assert x in paths by {
        KeepMatchedPaths(tail, paths);
        var m := multiset(r.unmatched);
        assert m[x] > 0;
        assert multiset(paths)[x] >= m[x];
      }
      PathsCons(contents);
    }
  }

  lemma UnconsumedKeepCase(contents: seq<Item>, paths: seq<string>, i: int, x: string)
    requires contents != [] && i == IndexOf(paths, contents[0].filePath) && i >= 0
    requires var rest := KeepMatched(contents[1..], RemoveAt(paths, i));
      x in rest.unmatched ==> multiset(PathsOf(rest.kept))[x] == multiset(PathsOf(contents[1..]))[x]
    ensures var r := KeepMatched(contents, paths);
      x in r.unmatched ==> multiset(PathsOf(r.kept))[x] == multiset(PathsOf(contents))[x]
  {
    var rest := KeepMatched(contents[1..], RemoveAt(paths, i));
    var r := Reconciled([contents[0]] + rest.kept, rest.unmatched);
    assert KeepMatched(contents, paths) == r;
    PathsCons(contents);
    PathsCons(r.kept);
    assert r.kept[1..] == rest.kept;
  }

  lemma PathsCons(items: seq<Item>)
    requires items != []
    ensures PathsOf(items) == [items[0].filePath] + PathsOf(items[1..])
  {
    PathsOfConcat([items[0]], items[1..]);
    assert [items[0]] + items[1..] == items;
  }

  /** Only rows of distinct paths: then a row is kept iff its path is among the input paths. */
  predicate DistinctPaths(items: seq<Item>) {
    forall i, j :: 0 <= i < j < |items| ==> items[i].filePath != items[j].filePath
  }

  /** The rows whose path occurs in `paths`, in their order. */
  function Present(contents: seq<Item>, paths: seq<string>): (r: seq<Item>)
    ensures forall it :: it in r ==> it in contents && it.filePath in paths
  {
    if contents == [] then []
    else if contents[0].filePath in paths then [contents[0]] + Present(contents[1..], paths)
    else Present(contents[1..], paths)
  }

  lemma {:induction false} PresentIgnoresOtherPaths(contents: seq<Item>, paths: seq<string>, i: nat)
    requires i < |paths|
    requires forall it :: it in contents ==> it.filePath != paths[i]
    ensures Present(contents, RemoveAt(paths, i)) == Present(contents, paths)
    decreases |contents|
  {
    if contents != [] {
      var p := contents[0].filePath;
      assert p != paths[i];
      assert paths == paths[..i] + [paths[i]] + paths[i + 1..];
      assert p in RemoveAt(paths, i) <==> p in paths;
      PresentIgnoresOtherPaths(contents[1..], paths, i);
    }
  }

  /** With distinct row paths, the removal pass keeps exactly the rows whose path is in the input. */
  lemma {:induction false} KeepMatchedDistinct(contents: seq<Item>, paths: seq<string>)
    requires DistinctPaths(contents)
    ensures KeepMatched(contents, paths).kept == Present(contents, paths)
    decreases |contents|
  {
    if contents != [] {
      assert DistinctPaths(contents[1..]);
      var i := IndexOf(paths, contents[0].filePath);
      if i == -1 {
        KeepMatchedDistinct(contents[1..], paths);
      } else {
        KeepMatchedDistinct(contents[1..], RemoveAt(paths, i));
        forall it | it in contents[1..] ensures it.filePath != paths[i] {
          var k :| 0 <= k < |contents[1..]| && contents[1..][k] == it;
          assert contents[k + 1] == it;
        }
        PresentIgnoresOtherPaths(contents[1..], paths, i);
      }
    }
  }

  // ---------------------------------------------------------------------
  // setData, phase two: insert a row for every unconsumed path
  // ---------------------------------------------------------------------

  /** The row built for a new core file. */
  function NewItem(path: string, env: Collaborators): (item: Item)
    ensures item.filePath == path && item.dateCreated == env.created(path)
  {
    var info := env.parse(path);
    Item(info.application, ToInt(info.pid), env.signalName(ToInt(info.signal)), path, env.created(path))
  }

  /** Where a row created at `date` goes: before the first row strictly older than it. */
  function InsertPosition(contents: seq<Item>, date: int): (i: nat)
    ensures i <= |contents|
    ensures forall k :: 0 <= k < i ==> date <= contents[k].dateCreated
    ensures i < |contents| ==> date > contents[i].dateCreated
  {
    if contents == [] || date > contents[0].dateCreated then 0
    else 1 + InsertPosition(contents[1..], date)
  }

  /** Insert `item` at its date position; taking it out again gives back the old rows. */
  function InsertByDate(contents: seq<Item>, item: Item): (r: seq<Item>)
    ensures |r| == |contents| + 1
    ensures multiset(PathsOf(r)) == multiset(PathsOf(contents)) + multiset{item.filePath}
    ensures multiset(r) == multiset(contents) + multiset{item}
    ensures NewestFirst(contents) ==> NewestFirst(r)
  {
    var i := InsertPosition(contents, item.dateCreated);
    InsertedAt(contents, item, i);
    InsertedNewestFirst(contents, item, i);
    contents[..i] + [item] + contents[i..]
  }

  /** The inserted row sits at its date position, and taking it out gives back the old rows. */
  lemma InsertByDateRemovable(contents: seq<Item>, item: Item)
    ensures var r := InsertByDate(contents, item);
      var i := InsertPosition(contents, item.dateCreated);
      r[i] == item && r[..i] + r[i + 1..] == contents
  {
    InsertedAt(contents, item, InsertPosition(contents, item.dateCreated));
  }

  /** Inserting at any position adds exactly the item, and its path, and leaves the others in order. */
  lemma InsertedAt(contents: seq<Item>, item: Item, i: nat)
    requires i <= |contents|
    ensures var r := contents[..i] + [item] + contents[i..];
      r[i] == item && r[..i] + r[i + 1..] == contents &&
      multiset(r) == multiset(contents) + multiset{item} &&
      multiset(PathsOf(r)) == multiset(PathsOf(contents)) + multiset{item.filePath}
  {
    var front, back := contents[..i], contents[i..];
    var r := front + [item] + back;
    assert contents == front + back;
    assert r[..i] == front && r[i + 1..] == back;
    InsertedPaths(front, item, back);
  }

  lemma InsertedPaths(front: seq<Item>, item: Item, back: seq<Item>)
    ensures multiset(PathsOf(front + [item] + back)) ==
      multiset(PathsOf(front + back)) + multiset{item.filePath}
  {
    PathsOfConcat(front + [item], back);
    PathsOfConcat(front, [item]);
    PathsOfConcat(front, back);
    assert PathsOf([item]) == [item.filePath];
  }

  lemma InsertedNewestFirst(contents: seq<Item>, item: Item, i: nat)
    requires i == InsertPosition(contents, item.dateCreated)
    ensures NewestFirst(contents) ==> NewestFirst(contents[..i] + [item] + contents[i..])
  {
    var r := contents[..i] + [item] + contents[i..];
    if NewestFirst(contents) {
      assert forall a :: 0 <= a < i ==> r[a] == contents[a];
      assert forall a :: i < a < |r| ==> r[a] == contents[a - 1];
      forall m | i <= m < |contents| ensures item.dateCreated > contents[m].dateCreated {
        assert contents[i].dateCreated >= contents[m].dateCreated;
      }
      forall a, b | 0 <= a < b < |r| ensures r[a].dateCreated >= r[b].dateCreated {
        if b < i {
          assert contents[a].dateCreated >= contents[b].dateCreated;
        } else if b == i {
          assert r[a] == contents[a];
        } else if a < i {
          assert contents[a].dateCreated >= contents[b - 1].dateCreated;
        } else if a > i {
          assert contents[a - 1].dateCreated >= contents[b - 1].dateCreated;
        }
      }
    }
  }

  /** The rows built for `paths`, in order. */
  function NewItems(paths: seq<string>, env: Collaborators): (items: seq<Item>)
    ensures |items| == |paths|
    ensures forall k :: 0 <= k < |paths| ==> items[k] == NewItem(paths[k], env)
  {
    seq(|paths|, k requires 0 <= k < |paths| => NewItem(paths[k], env))
  }

  lemma NewItemsSnoc(paths: seq<string>, env: Collaborators)
    requires paths != []
    ensures var init := paths[..|paths| - 1];
      paths == init + [paths[|paths| - 1]] &&
      multiset(NewItems(paths, env)) == multiset(NewItems(init, env)) + multiset{NewItem(paths[|paths| - 1], env)}
  {
    var init := paths[..|paths| - 1];
    assert paths == init + [paths[|paths| - 1]];
    assert NewItems(paths, env) == NewItems(init, env) + [NewItem(paths[|paths| - 1], env)];
  }

  /** Insert a row for each path, one after another, each at its date position. */
  function InsertAll(contents: seq<Item>, paths: seq<string>, env: Collaborators): (r: seq<Item>)
    ensures |r| == |contents| + |paths|
    ensures multiset(PathsOf(r)) == multiset(PathsOf(contents)) + multiset(paths)
    ensures NewestFirst(contents) ==> NewestFirst(r)
    decreases |paths|
  {
    if paths == [] then
      contents
    else
      var init := paths[..|paths| - 1];
      assert paths == init + [paths[|paths| - 1]];
      InsertByDate(InsertAll(contents, init, env), NewItem(paths[|paths| - 1], env))
  }

  /** The rows after insertion are the old rows and one new row per path. */
  lemma {:induction false} InsertAllRows(contents: seq<Item>, paths: seq<string>, env: Collaborators)
    ensures multiset(InsertAll(contents, paths, env)) == multiset(contents) + multiset(NewItems(paths, env))
    decreases |paths|
  {
    if paths != [] {
      InsertAllRows(contents, paths[..|paths| - 1], env);
      NewItemsSnoc(paths, env);
    }
  }

  /** One step of the removal pass, on the rows not yet visited. */
  lemma KeepMatchedStep(rows: seq<Item>, paths: seq<string>)
    requires rows != []
    ensures var i := IndexOf(paths, rows[0].filePath);
      KeepMatched(rows, paths) ==
        if i == -1 then KeepMatched(rows[1..], paths)
        else Reconciled([rows[0]] + KeepMatched(rows[1..], RemoveAt(paths, i)).kept,
                        KeepMatched(rows[1..], RemoveAt(paths, i)).unmatched)
  {
  }

  /** The removal pass drops row `i` when its path is not among the unconsumed paths. */
  lemma DropStep(rows: seq<Item>, i: nat, paths: seq<string>)
    requires i < |rows| && IndexOf(paths, rows[i].filePath) == -1
    ensures var next := rows[..i] + rows[i + 1..];
      next[..i] == rows[..i] && KeepMatched(next[i..], paths) == KeepMatched(rows[i..], paths)
  {
    var next := rows[..i] + rows[i + 1..];
    KeepMatchedStep(rows[i..], paths);
    assert rows[i..][1..] == rows[i + 1..];
    assert next[i..] == rows[i + 1..];
  }

  /** The removal pass keeps row `i` when its path is the unconsumed path at `index`, consuming it. */
  lemma KeepStep(rows: seq<Item>, i: nat, paths: seq<string>, index: int)
    requires i < |rows| && index == IndexOf(paths, rows[i].filePath) && index != -1
    ensures var rest := KeepMatched(rows[i + 1..], paths[..index] + paths[index + 1..]);
      rows[..i] + KeepMatched(rows[i..], paths).kept == rows[..i + 1] + rest.kept &&
      KeepMatched(rows[i..], paths).unmatched == rest.unmatched
  {
    var tail := rows[i..];
    assert tail[0] == rows[i] && tail[1..] == rows[i + 1..];
    var remaining := paths[..index] + paths[index + 1..];
    assert remaining == RemoveAt(paths, index);
    var rest := KeepMatched(rows[i + 1..], remaining);
    assert KeepMatched(tail, paths).kept == [rows[i]] + rest.kept by {
      KeepMatchedStep(tail, paths);
    }
    assert rows[..i + 1] == rows[..i] + [rows[i]];
    ConcatAssociative(rows[..i], [rows[i]], rest.kept);
  }


  /** One step of the insertion pass. */
  lemma InsertAllStep(start: seq<Item>, paths: seq<string>, k: nat, env: Collaborators, rows: seq<Item>, j: nat)
    requires k < |paths| && rows == InsertAll(start, paths[..k], env)
    requires j == InsertPosition(rows, env.created(paths[k]))
    ensures rows[..j] + [NewItem(paths[k], env)] + rows[j..] == InsertAll(start, paths[..k + 1], env)
  {
    assert paths[..k + 1][..k] == paths[..k];
  }

  /**
   * setData: the removal pass, then, unless every input path was consumed,
   * one inserted row per unconsumed path. The resulting rows carry exactly
   * the input paths, with their multiplicities; surviving rows are
   * unchanged, added rows are built from their path, and a newest-first
   * list stays newest first. When nothing is inserted the list only shrinks.
   */
  function SetDataResult(contents: seq<Item>, data: seq<string>, env: Collaborators): (r: seq<Item>)
    ensures multiset(PathsOf(r)) == multiset(data)
    ensures |r| == |data|
    ensures var rec := KeepMatched(contents, data);
      multiset(r) == multiset(rec.kept) + multiset(NewItems(rec.unmatched, env))
    ensures forall it :: it in r ==> it in contents || it == NewItem(it.filePath, env)
    ensures KeepMatched(contents, data).unmatched == [] ==> IsSubsequence(r, contents)
    ensures NewestFirst(contents) ==> NewestFirst(r)
  {
    var rec := KeepMatched(contents, data);
    KeepMatchedPaths(contents, data);
    KeepMatchedOrder(contents, data);
    SubsequenceElements(rec.kept, contents);
    KeptNewestFirst(contents, rec.kept);
    if rec.unmatched == [] then
      assert NewItems(rec.unmatched, env) == [];
      rec.kept
    else
      var r := InsertAll(rec.kept, rec.unmatched, env);
      InsertAllRows(rec.kept, rec.unmatched, env);
      RowsOrigin(contents, rec.kept, rec.unmatched, env);
      r
  }

  lemma KeptNewestFirst(contents: seq<Item>, kept: seq<Item>)
    requires IsSubsequence(kept, contents)
    ensures NewestFirst(contents) ==> NewestFirst(kept)
  {
    if NewestFirst(contents) {
      SubsequenceNewestFirst(kept, contents);
    }
  }

  /** Every row after insertion is a kept row or one built from its path. */
  lemma RowsOrigin(contents: seq<Item>, kept: seq<Item>, unmatched: seq<string>, env: Collaborators)
    requires forall it :: it in kept ==> it in contents
    ensures var r := InsertAll(kept, unmatched, env);
      forall it :: it in r ==> it in contents || it == NewItem(it.filePath, env)
  {
    var r := InsertAll(kept, unmatched, env);
    InsertAllRows(kept, unmatched, env);
    forall it | it in r ensures it in contents || it == NewItem(it.filePath, env) {
      assert it in multiset(r);
      if it !in multiset(kept) {
        assert it in multiset(NewItems(unmatched, env));
        var k :| 0 <= k < |unmatched| && NewItems(unmatched, env)[k] == it;
      }
    }
  }

  /** The rows' paths are exactly the input's paths, one row per input entry. */
  lemma SamePathsAsInput(contents: seq<Item>, data: seq<string>, env: Collaborators)
    ensures var r := SetDataResult(contents, data, env);
      |r| == |data| && forall x :: x in PathsOf(r) <==> x in data
  {
    var paths := PathsOf(SetDataResult(contents, data, env));
    assert forall x :: x in paths <==> x in multiset(paths);
    assert forall x :: x in data <==> x in multiset(data);
  }

  // ---------------------------------------------------------------------
  // The model object
  // ---------------------------------------------------------------------

  class PendingUploadsModel {
    var contents: seq<Item>

    constructor ()
      ensures contents == []
    {
      contents := [];
    }

    method RowCount() returns (n: int)
      ensures n == |contents|
    {
      n := |contents|;
    }

    /** data(index, role): the row must exist. */
    method Data(row: int, role: Role) returns (v: Value)
      requires 0 <= row < |contents|
      ensures v == ItemData(contents[row], role)
    {
      var item := contents[row];
      match role
      case Application => v := Text(item.applicationName);
      case PID => v := Number(item.pid);
      case Signal => v := Text(item.signal);
      case FilePath => v := Text(item.filePath);
      case DateCreated => v := Date(item.dateCreated);
      case OtherRole(_) => v := Invalid;
    }

    method RoleNames() returns (names: map<Role, string>)
      ensures names == RoleNameTable()
    {
      names := map[];
      names := names[Application := "application"];
      names := names[PID := "pid"];
      names := names[Signal := "signal"];
      names := names[FilePath := "filePath"];
      names := names[DateCreated := "dateCreated"];
    }

    /** setData: reconcile the rows with the current list of pending core files. */
    method SetData(data: seq<string>, env: Collaborators)
      modifies this
      ensures contents == SetDataResult(old(contents), data, env)
    {
      var newData := RemoveVanished(data);
      if newData == [] {
        return;
      }
      InsertRows(newData, env);
    }

    /**
     * The removal pass of setData. A dropped row is removed in place and
     * the index stays put (PendingUploadsModel::setData's removeAt(i--) followed by ++i);
     * a kept row consumes its path from the returned list.
     */
    method RemoveVanished(data: seq<string>) returns (newData: seq<string>)
      modifies this
      ensures contents == KeepMatched(old(contents), data).kept
      ensures newData == KeepMatched(old(contents), data).unmatched
    {
      newData := data;
      ghost var rec := KeepMatched(contents, data);
      var i := 0;
      while i != |contents|
        invariant 0 <= i <= |contents|
        invariant rec.kept == contents[..i] + KeepMatched(contents[i..], newData).kept
        invariant rec.unmatched == KeepMatched(contents[i..], newData).unmatched
        decreases |contents| - i
      {
        var index := IndexOf(newData, contents[i].filePath);
        if index == -1 {
          var next := contents[..i] + contents[i + 1..];
          DropStep(contents, i, newData);
          contents := next;
        } else {
          var remaining := newData[..index] + newData[index + 1..];
          KeepStep(contents, i, newData, index);
          newData := remaining;
          i := i + 1;
        }
      }
      assert contents[i..] == [];
      assert contents[..i] == contents;
    }

    /** The insertion pass of setData: each path gets a row before the first strictly older one. */
    method InsertRows(paths: seq<string>, env: Collaborators)
      modifies this
      ensures contents == InsertAll(old(contents), paths, env)
    {
      ghost var start := contents;
      var k := 0;
      while k < |paths|
        invariant 0 <= k <= |paths|
        invariant contents == InsertAll(start, paths[..k], env)
      {
        var item := NewItem(paths[k], env);
        var j := InsertionRow(item.dateCreated);
        InsertAllStep(start, paths, k, env, contents, j);
        contents := contents[..j] + [item] + contents[j..];
        k := k + 1;
      }
      assert paths[..k] == paths;
    }

    /** The row before which an item created at `date` goes: the first strictly older row, or the end. */
    method InsertionRow(date: int) returns (j: int)
      ensures j == InsertPosition(contents, date)
    {
      j := 0;
      while j < |contents|
        invariant 0 <= j <= |contents|
        invariant forall m :: 0 <= m < j ==> date <= contents[m].dateCreated
      {
        if date > contents[j].dateCreated {
          break;
        }
        j := j + 1;
      }
    }
  }
}
