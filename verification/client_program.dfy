/** The command-line client's pre-processing of its arguments and the
    narrowing of a command's result by a path query (SIM.Client.Program). */
module ClientProgram {
  import opened Extensions

  const QueryFlag := "--query"
  const DataFlag := "--data"
  const WaitFlag := "--wait"

  /** The argument list (a List<string>) that the filters edit in place. */
  class ArgumentList {
    var items: seq<string>

    constructor (items: seq<string>)
      ensures this.items == items
    {
      this.items := items;
    }

    method SetAt(i: nat, x: string)
      requires i < |items|
      modifies this
      ensures items == old(items)[i := x]
    {
      items := items[i := x];
    }

    method Insert(i: nat, x: string)
      requires i <= |items|
      modifies this
      ensures items == old(items)[..i] + [x] + old(items)[i..]
    {
      items := items[..i] + [x] + items[i..];
    }

    method RemoveAt(i: nat)
      requires i < |items|
      modifies this
      ensures items == old(items)[..i] + old(items)[i + 1..]
    {
      items := items[..i] + items[i + 1..];
    }
  }

  // ---------------------------------------------------------------------
  // --wait

  predicate IsWaitFlag(a: string) { a == WaitFlag }

  /** What the wait filter yields: whether the flag was given, and the rest. */
  datatype WaitSplit = WaitSplit(wait: bool, rest: seq<string>)

  /** The effect of GetWaitAndFilterArgs on a list of arguments: the flag is
      reported iff it occurs, and exactly its first occurrence is dropped. */
  function FilterWait(args: seq<string>): (r: WaitSplit)
    ensures r.wait <==> WaitFlag in args
    ensures !r.wait ==> r.rest == args
    ensures r.wait ==> exists k :: 0 <= k < |args| && args[k] == WaitFlag
                                 && (forall j :: 0 <= j < k ==> args[j] != WaitFlag)
                                 && r.rest == args[..k] + args[k + 1..]
  {
    var k := FirstIndex(args, IsWaitFlag);
    if k < |args| then WaitSplit(true, args[..k] + args[k + 1..]) else WaitSplit(false, args)
  }

  /** Removes the first "--wait" from the list and tells whether there was one. */
  method GetWaitAndFilterArgs(filteredArgs: ArgumentList) returns (wait: bool)
    modifies filteredArgs
    ensures WaitSplit(wait, filteredArgs.items) == FilterWait(old(filteredArgs.items))
  {
    var i := 0;
    while i < |filteredArgs.items|
      invariant i <= |filteredArgs.items|
      invariant filteredArgs.items == old(filteredArgs.items)
      invariant forall j :: 0 <= j < i ==> !IsWaitFlag(filteredArgs.items[j])
    {
      if filteredArgs.items[i] != WaitFlag {
        i := i + 1;
        continue;
      }
      FirstIndexIs(filteredArgs.items, IsWaitFlag, i);
      filteredArgs.RemoveAt(i);
      return true;
    }
    FirstIndexIs(filteredArgs.items, IsWaitFlag, i);
    return false;
  }

  // ---------------------------------------------------------------------
  // --query X and --data

  predicate IsQueryOption(a: string) { a == QueryFlag || a == DataFlag }

  /** What the query filter yields: the query text and the remaining arguments. */
  datatype QuerySplit = QuerySplit(query: string, rest: seq<string>)

  /** The effect of GetQueryAndFilterArgs on a list of arguments. Only the first
      "--query" or "--data" is looked at; "--data" counts as "--query data". */
  function FilterQuery(args: seq<string>): (r: QuerySplit)
    ensures |r.rest| <= |args|
  {
    var k := FirstIndex(args, IsQueryOption);
    if k == |args| then QuerySplit("", args)
    else if args[k] == DataFlag then QuerySplit("data", args[..k] + args[k + 1..])
    else if k + 1 < |args| then QuerySplit(args[k + 1], args[..k] + args[k + 2..])
    else QuerySplit("", args[..k])
  }

  /** Takes the query given by "--query X" or "--data" out of the list. */
  method GetQueryAndFilterArgs(filteredArgs: ArgumentList) returns (query: string)
    modifies filteredArgs
    ensures QuerySplit(query, filteredArgs.items) == FilterQuery(old(filteredArgs.items))
  {
    query := "";
    ghost var found := false;
    var i := 0;
    while i < |filteredArgs.items|
      invariant i <= |filteredArgs.items|
      invariant filteredArgs.items == old(filteredArgs.items)
      invariant forall j :: 0 <= j < i ==> !IsQueryOption(filteredArgs.items[j])
    {
      ghost var original := filteredArgs.items;
      if filteredArgs.items[i] == DataFlag {
        filteredArgs.SetAt(i, QueryFlag);
        filteredArgs.Insert(i + 1, "data");
        DataExpanded(original, i);
      }
      if filteredArgs.items[i] != QueryFlag {
        i := i + 1;
        continue;
      }
      ghost var expanded := filteredArgs.items;
      FilterQueryAt(original, i);
      filteredArgs.RemoveAt(i);
      if |filteredArgs.items| > i {
        query := filteredArgs.items[i];
        filteredArgs.RemoveAt(i);
        RemoveAtTwice(expanded, i);
      } else {
        assert filteredArgs.items == expanded[..i];
      }
      found := true;
      break;
    }
    if !found {
      FirstIndexIs(filteredArgs.items, IsQueryOption, i);
    }
  }

  /** FilterQuery once its first flag is known to stand at `k`. */
  lemma FilterQueryAt(args: seq<string>, k: nat)
    requires k < |args| && IsQueryOption(args[k])
    requires forall j :: 0 <= j < k ==> !IsQueryOption(args[j])
    ensures FilterQuery(args) ==
              if args[k] == DataFlag then QuerySplit("data", args[..k] + args[k + 1..])
              else if k + 1 < |args| then QuerySplit(args[k + 1], args[..k] + args[k + 2..])
              else QuerySplit("", args[..k])
  {
    FirstIndexIs(args, IsQueryOption, k);
  }

  /** Rewriting the element at `i` into "--query" and inserting "data" after it. */
  lemma DataExpanded(s: seq<string>, i: nat)
    requires i < |s|
    ensures var t := s[i := QueryFlag];
            var e := t[..i + 1] + ["data"] + t[i + 1..];
            |e| == |s| + 1 && e[i] == QueryFlag && e[i + 1] == "data"
            && e[..i] + e[i + 2..] == s[..i] + s[i + 1..]
  {
    var t := s[i := QueryFlag];
    var e := t[..i + 1] + ["data"] + t[i + 1..];
    assert e[..i] == s[..i];
    assert e[i + 2..] == s[i + 1..];
  }

  /** Removing at `i` twice removes the two elements starting at `i`. */
  lemma RemoveAtTwice(s: seq<string>, i: nat)
    requires i + 1 < |s|
    ensures var once := s[..i] + s[i + 1..];
            once[i] == s[i + 1] && once[..i] + once[i + 1..] == s[..i] + s[i + 2..]
  {
    var once := s[..i] + s[i + 1..];
    assert once[..i] == s[..i];
    assert once[i + 1..] == s[i + 2..];
  }

  /** Without either flag the query is empty and the list is left as it is. */
  lemma FilterQueryWithoutFlag(args: seq<string>)
    requires QueryFlag !in args && DataFlag !in args
    ensures FilterQuery(args) == QuerySplit("", args)
  {
    FirstIndexIs(args, IsQueryOption, |args|);
  }

  /** "--query X" as the first flag: both go, X is the query, whatever X is. */
  lemma FilterQueryTakesNext(args: seq<string>, k: nat)
    requires k + 1 < |args| && args[k] == QueryFlag
    requires forall j :: 0 <= j < k ==> !IsQueryOption(args[j])
    ensures FilterQuery(args) == QuerySplit(args[k + 1], args[..k] + args[k + 2..])
  {
    FirstIndexIs(args, IsQueryOption, k);
  }

  /** A trailing "--query" is dropped and the query stays empty. */
  lemma FilterQueryTrailing(args: seq<string>)
    requires |args| > 0 && args[|args| - 1] == QueryFlag
    requires forall j :: 0 <= j < |args| - 1 ==> !IsQueryOption(args[j])
    ensures FilterQuery(args) == QuerySplit("", args[..|args| - 1])
  {
    FirstIndexIs(args, IsQueryOption, |args| - 1);
  }

  /** "--data" as the first flag behaves exactly like "--query data". */
  lemma FilterQueryDataIsQueryData(args: seq<string>, k: nat)
    requires k < |args| && args[k] == DataFlag
    requires forall j :: 0 <= j < k ==> !IsQueryOption(args[j])
    ensures FilterQuery(args) == QuerySplit("data", args[..k] + args[k + 1..])
    ensures FilterQuery(args) == FilterQuery(args[..k] + [QueryFlag, "data"] + args[k + 1..])
  {
    var expanded := args[..k] + [QueryFlag, "data"] + args[k + 1..];
    FirstIndexIs(args, IsQueryOption, k);
    FirstIndexIs(expanded, IsQueryOption, k);
    assert expanded[..k] + expanded[k + 2..] == args[..k] + args[k + 1..];
  }

  /** The filter deletes one contiguous block of at most two arguments,
      starting at the first flag, and nothing else. */
  lemma FilterQueryDeletesOneBlock(args: seq<string>)
    ensures var k := FirstIndex(args, IsQueryOption);
            var rest := FilterQuery(args).rest;
            && (k == |args| ==> rest == args)
            && (k < |args| ==> rest == args[..k] + args[k + 1..]
                               || (k + 2 <= |args| && rest == args[..k] + args[k + 2..]))
  {
    var k := FirstIndex(args, IsQueryOption);
    if k < |args| && args[k] != DataFlag && k + 1 == |args| {
      assert args[..k] == args[..k] + args[k + 1..];
    }
  }

  // ---------------------------------------------------------------------
  // Narrowing a command result by a query path

  /** A value reachable from a command result: null, a dictionary (looked up by
      exact key) or any other object, seen as its public properties in order. */
  datatype Value = Null | Dictionary(entries: map<string, Value>) | Object(properties: seq<Property>)
  datatype Property = Property(name: string, value: Value)

  predicate IsSeparator(c: char) { c == '.' || c == '/' }

  predicate NoSeparator(s: string) { forall c :: c in s ==> !IsSeparator(c) }

  /** The query split at every '.' and '/', empty chunks included (string.Split). */
  function Split(s: string): (chunks: seq<string>)
    ensures |chunks| >= 1
    ensures forall chunk :: chunk in chunks ==> NoSeparator(chunk)
  {
    if s == [] then [""]
    else
      var rest := Split(s[1..]);
      if IsSeparator(s[0]) then [""] + rest
      else
        assert rest[0] in rest && forall chunk :: chunk in rest[1..] ==> chunk in rest;
        [[s[0]] + rest[0]] + rest[1..]
  }

  /** The separators of `s`, in order. */
  function SeparatorsOf(s: string): seq<char>
  {
    if s == [] then []
    else if IsSeparator(s[0]) then [s[0]] + SeparatorsOf(s[1..])
    else SeparatorsOf(s[1..])
  }

  /** Chunks glued back together with the given separators between them. */
  function Interleave(chunks: seq<string>, seps: seq<char>): string
    requires |chunks| == |seps| + 1
  {
    if seps == [] then chunks[0]
    else chunks[0] + [seps[0]] + Interleave(chunks[1..], seps[1..])
  }

  /** Splitting loses nothing: the chunks and the separators rebuild the query. */
  lemma {:induction false} SplitRoundTrip(s: string)
    ensures |Split(s)| == |SeparatorsOf(s)| + 1
    ensures Interleave(Split(s), SeparatorsOf(s)) == s
  {
    if s != [] {
      SplitRoundTrip(s[1..]);
      var rest := Split(s[1..]);
      var seps := SeparatorsOf(s[1..]);
      if IsSeparator(s[0]) {
        assert s == [s[0]] + s[1..];
      } else if seps == [] {
        assert s == [s[0]] + s[1..];
      } else {
        calc {
          Interleave(Split(s), SeparatorsOf(s));
          ([s[0]] + rest[0]) + [seps[0]] + Interleave(rest[1..], seps[1..]);
          [s[0]] + (rest[0] + [seps[0]] + Interleave(rest[1..], seps[1..]));
          [s[0]] + Interleave(rest, seps);
          s;
        }
      }
    }
  }

  /** '.' and '/' are interchangeable: only where separators stand matters. */
  lemma {:induction false} SplitSeparatorKindIrrelevant(s: string, t: string)
    requires |s| == |t|
    requires forall i :: 0 <= i < |s| ==> (IsSeparator(s[i]) && IsSeparator(t[i])) || s[i] == t[i]
    ensures Split(s) == Split(t)
  {
    if s != [] {
      SplitSeparatorKindIrrelevant(s[1..], t[1..]);
    }
  }

  /** One step of the walk: an exact key of a dictionary, or the first property
      whose name matches ignoring case; a missing or null member resolves to None. */
  function Resolve(obj: Value, chunk: string): (r: Option<Value>)
    ensures r.Some? ==> r.value != Null
    ensures obj.Dictionary? ==> (r.Some? <==> chunk in obj.entries && obj.entries[chunk] != Null)
    ensures obj.Dictionary? && r.Some? ==> r.value == obj.entries[chunk]
    ensures obj.Object? && r.Some? ==> exists k :: 0 <= k < |obj.properties|
                                         && EqualsIgnoreCase(obj.properties[k].name, chunk)
                                         && (forall j :: 0 <= j < k ==> !EqualsIgnoreCase(obj.properties[j].name, chunk))
                                         && r.value == obj.properties[k].value
    ensures obj.Object? ==> forall k :: 0 <= k < |obj.properties|
                                        && EqualsIgnoreCase(obj.properties[k].name, chunk)
                                        && (forall j :: 0 <= j < k ==> !EqualsIgnoreCase(obj.properties[j].name, chunk))
                                        ==> r == (if obj.properties[k].value == Null then None else Some(obj.properties[k].value))
    ensures obj.Object? && (forall k :: 0 <= k < |obj.properties| ==> !EqualsIgnoreCase(obj.properties[k].name, chunk)) ==> r.None?
    ensures obj.Null? ==> r.None?
  {
    match obj
    case Null => None
    case Dictionary(entries) =>
      if chunk in entries && entries[chunk] != Null then Some(entries[chunk]) else None
    case Object(properties) =>
      var k := FirstIndex(properties, (p: Property) => EqualsIgnoreCase(p.name, chunk));
      if k < |properties| && properties[k].value != Null then Some(properties[k].value) else None
  }

  /** The value reached by following `chunks` from `obj`; empty chunks are skipped
      and the walk fails at the first chunk that does not resolve. */
  function Walk(obj: Value, chunks: seq<string>): (r: Option<Value>)
    ensures obj != Null && r.Some? ==> r.value != Null
  {
    if chunks == [] then Some(obj)
    else if chunks[0] == "" then Walk(obj, chunks[1..])
    else match Resolve(obj, chunks[0])
      case None => None
      case Some(next) => Walk(next, chunks[1..])
  }

  /** Walking a concatenated path is walking the first part, then the second. */
  lemma {:induction false} WalkAppend(obj: Value, a: seq<string>, b: seq<string>)
    ensures Walk(obj, a + b) == if Walk(obj, a).None? then None else Walk(Walk(obj, a).value, b)
  {
    if a == [] {
      assert a + b == b;
    } else {
      assert (a + b)[0] == a[0] && (a + b)[1..] == a[1..] + b;
      if a[0] == "" {
        WalkAppend(obj, a[1..], b);
      } else if Resolve(obj, a[0]).Some? {
        WalkAppend(Resolve(obj, a[0]).value, a[1..], b);
      }
    }
  }

  /** One unresolved chunk anywhere on the path makes the whole query fail. */
  lemma WalkFailsAtMissingChunk(obj: Value, before: seq<string>, chunk: string, after: seq<string>, reached: Value)
    requires chunk != ""
    requires Walk(obj, before) == Some(reached)
    requires Resolve(reached, chunk) == None
    ensures Walk(obj, before + [chunk] + after) == None
  {
    WalkAppend(obj, before, [chunk] + after);
    assert before + [chunk] + after == before + ([chunk] + after);
  }

  /** A path made only of empty chunks leads back to where it started. */
  lemma {:induction false} WalkEmptyChunks(obj: Value, chunks: seq<string>)
    requires forall i :: 0 <= i < |chunks| ==> chunks[i] == ""
    ensures Walk(obj, chunks) == Some(obj)
  {
    if chunks != [] {
      WalkEmptyChunks(obj, chunks[1..]);
    }
  }

  /** A query made only of separators splits into empty chunks only. */
  lemma {:induction false} SplitOnlySeparators(s: string)
    requires forall i :: 0 <= i < |s| ==> IsSeparator(s[i])
    ensures forall i :: 0 <= i < |Split(s)| ==> Split(s)[i] == ""
  {
    if s != [] {
      SplitOnlySeparators(s[1..]);
    }
  }

  /** Narrows a successful command result by a query path; the result itself is
      returned for a missing or empty query or an unsuccessful command, and None
      (null) when some chunk cannot be resolved. */
  method QueryResult(result: Value, success: bool, query: Option<string>) returns (r: Option<Value>)
    requires result != Null
    ensures query.None? || query.value == "" || !success ==> r == Some(result)
    ensures query.Some? && query.value != "" && success ==> r == Walk(result, Split(query.value))
    ensures r.Some? ==> r.value != Null
  {
    if query.None? || query.value == "" || !success {
      return Some(result);
    }
    var chunks := Split(query.value);
    var obj := result;
    var i := 0;
    while i < |chunks|
      invariant i <= |chunks|
      invariant obj != Null
      invariant Walk(result, chunks) == Walk(obj, chunks[i..])
    {
      var chunk := chunks[i];
      assert chunks[i..][1..] == chunks[i + 1..];
      if chunk == "" {
        i := i + 1;
        continue;
      }
      var next := Resolve(obj, chunk);
      if next.None? {
        return None;
      }
      obj := next.value;
      i := i + 1;
    }
    return Some(obj);
  }

  /** A query of separators only ("/", "./.") returns the whole result. */
  lemma QueryOfSeparatorsOnly(result: Value, query: string)
    requires forall i :: 0 <= i < |query| ==> IsSeparator(query[i])
    ensures Walk(result, Split(query)) == Some(result)
  {
    SplitOnlySeparators(query);
    WalkEmptyChunks(result, Split(query));
  }
}
