/**
  `Config`: a YAML-backed dictionary addressed by dotted paths. `get` walks
  the nested dictionaries and falls back to a default; `set` creates (or
  replaces by) empty dictionaries along the path and stores the value at its
  end; `load` merges the file's top-level keys over the defaults.
  YAML parsing and file access are left out: the loaded document is a
  parameter, `None` when there is no file.
*/
module Configuration {
  import opened Wrappers
  import opened Strings

  /** A YAML value as `yaml.safe_load` produces it. */
  datatype Value =
    | Dict(entries: map<string, Value>)
    | List(items: seq<Value>)
    | Str(s: string)
    | Num(n: real)
    | Bool(b: bool)
    | Null

  /** `DEFAULT_CONFIG`. */
  function DefaultConfig(): (d: map<string, Value>)
    ensures d.Keys == {"rtsp_url", "screenshot_dir", "skip_frames", "hough_params"}
    ensures d["hough_params"].Dict? && |d["hough_params"].entries| == 6
  {
    map[
      "rtsp_url" := Str("rtsp://192.168.1.51:8554/stream"),
      "screenshot_dir" := Str("/path/to/screenshots"),
      "skip_frames" := Num(5.0),
      "hough_params" := Dict(map[
        "dp" := Num(1.2),
        "min_dist" := Num(50.0),
        "param1" := Num(100.0),
        "param2" := Num(70.0),
        "min_radius" := Num(20.0),
        "max_radius" := Num(100.0)])]
  }

  /** The keys of a dotted path, as `key.split(".")` gives them. */
  function PathOf(key: string): (path: seq<string>)
    ensures |path| >= 1
    ensures forall i :: 0 <= i < |path| ==> '.' !in path[i]
  {
    Split(key, '.')
  }

  /**
    The value reached from `v` by following `path`, or `None` as soon as a
    segment is missing or the value in hand is not a dictionary.
  */
  function Lookup(v: Value, path: seq<string>): (r: Option<Value>)
    ensures path == [] ==> r == Some(v)
    // only dictionaries are descended into
    ensures path != [] && r.Some? ==> v.Dict? && path[0] in v.entries
    decreases |path|
  {
    if path == [] then Some(v)
    else if v.Dict? && path[0] in v.entries then Lookup(v.entries[path[0]], path[1..])
    else None
  }

  /**
    The dictionary after storing `v` at `path`: every intermediate segment that
    is missing or holds a non-dictionary becomes an empty dictionary first.
  */
  function Store(d: map<string, Value>, path: seq<string>, v: Value): (r: map<string, Value>)
    requires |path| >= 1
    ensures r.Keys == d.Keys + {path[0]}
    ensures forall k :: k in d && k != path[0] ==> r[k] == d[k]
    decreases |path|
  {
    var k := path[0];
    if |path| == 1 then d[k := v]
    else
      var child := if k in d && d[k].Dict? then d[k].entries else map[];
      d[k := Dict(Store(child, path[1..], v))]
  }

  /** Reading back what was just stored at a path gives the stored value. */
  lemma {:induction false} LookupAfterStore(d: map<string, Value>, path: seq<string>, v: Value)
    requires |path| >= 1
    ensures Lookup(Dict(Store(d, path, v)), path) == Some(v)
    decreases |path|
  {
    var k := path[0];
    if |path| == 1 {
      assert Lookup(v, path[1..]) == Some(v);
    } else {
      var child := if k in d && d[k].Dict? then d[k].entries else map[];
      LookupAfterStore(child, path[1..], v);
    }
  }

  /** Neither path is a prefix of the other: they part at some segment. */
  predicate Diverge(p: seq<string>, q: seq<string>) {
    exists i :: 0 <= i < |p| && i < |q| && p[i] != q[i]
  }

  /** Storing at `path` leaves unchanged everything read through a path that parts from it. */
  lemma {:induction false} StoreLeavesOtherPaths(d: map<string, Value>, path: seq<string>, v: Value, q: seq<string>)
    requires |path| >= 1
    requires Diverge(path, q)
    ensures Lookup(Dict(Store(d, path, v)), q) == Lookup(Dict(d), q)
    decreases |path|
  {
    var k := path[0];
    var r := Store(d, path, v);
    if q[0] != k {
      if q[0] in d {
        assert r[q[0]] == d[q[0]];
      }
    } else {
      assert |path| > 1 by {
        var i :| 0 <= i < |path| && i < |q| && path[i] != q[i];
        assert i > 0;
      }
      var child := if k in d && d[k].Dict? then d[k].entries else map[];
      assert Diverge(path[1..], q[1..]) by {
        var i :| 0 <= i < |path| && i < |q| && path[i] != q[i];
        assert path[1..][i - 1] != q[1..][i - 1];
      }
      StoreLeavesOtherPaths(child, path[1..], v, q[1..]);
      if !(k in d && d[k].Dict?) {
        assert Lookup(Dict(child), q[1..]) == None by {
          assert q[1..] != [];
        }
      }
    }
  }

  /** Storing the same value at the same path twice is the same as storing it once. */
  lemma {:induction false} StoreIdempotent(d: map<string, Value>, path: seq<string>, v: Value)
    requires |path| >= 1
    ensures Store(Store(d, path, v), path, v) == Store(d, path, v)
    decreases |path|
  {
    if |path| > 1 {
      var k := path[0];
      var child := if k in d && d[k].Dict? then d[k].entries else map[];
      StoreIdempotent(child, path[1..], v);
    }
  }

  /** What `load` leaves behind: the data, and the exception `dict.update` raised, if any. */
  datatype Loaded = Loaded(data: map<string, Value>, raised: Option<Error>)

  /** The key and value an element of a sequence gives `dict.update`, when both are modelled. */
  function PairOf(item: Value): Option<(string, Value)> {
    match item
    case List(pair) => if |pair| == 2 && pair[0].Str? then Some((pair[0].s, pair[1])) else None
    case Str(s) => if |s| == 2 then Some(([s[0]], Str([s[1]]))) else None
    case _ => None
  }

  /**
    `dict.update` with a sequence: each element, in order, must itself be a
    sequence of length two, its key and its value. The pairs before a bad
    element have already been stored when the exception is raised.
  */
  function UpdateFromPairs(data: map<string, Value>, items: seq<Value>): (r: Loaded)
    ensures data.Keys <= r.data.Keys
    ensures r.raised.None? <==> forall i :: 0 <= i < |items| ==> PairOf(items[i]).Some?
    decreases |items|
  {
    if items == [] then Loaded(data, None)
    else if PairOf(items[0]).Some? then
      var pair := PairOf(items[0]).value;
      UpdateFromPairs(data[pair.0 := pair.1], items[1..])
    else Loaded(data, Some(NotAPair(items[0])))
  }

  /** The exception `dict.update` raises for an element that is not a key/value pair. */
  function NotAPair(item: Value): Error {
    match item
    case List(pair) =>
      if |pair| != 2 then ValueError("dictionary update sequence element has the wrong length; 2 is required")
      else TypeError("dictionary key is not a string")
    case Str(_) => ValueError("dictionary update sequence element has the wrong length; 2 is required")
    case Dict(m) =>
      if |m| != 2 then ValueError("dictionary update sequence element has the wrong length; 2 is required")
      else TypeError("dictionary key order is not modelled")
    case _ => TypeError("cannot convert dictionary update sequence element to a sequence")
  }

  /** The keys the pairs among `items` name. */
  function NamedKeys(items: seq<Value>): set<string> {
    set i | 0 <= i < |items| && PairOf(items[i]).Some? :: PairOf(items[i]).value.0
  }

  /** Loading a sequence, whether or not it raises, adds no key other than those its pairs name. */
  lemma {:induction false} UpdateAddsOnlyNamedKeys(data: map<string, Value>, items: seq<Value>)
    ensures UpdateFromPairs(data, items).data.Keys <= data.Keys + NamedKeys(items)
    decreases |items|
  {
    if items != [] && PairOf(items[0]).Some? {
      var pair := PairOf(items[0]).value;
      UpdateAddsOnlyNamedKeys(data[pair.0 := pair.1], items[1..]);
      forall k | k in NamedKeys(items[1..]) ensures k in NamedKeys(items) {
        var i :| 0 <= i < |items[1..]| && PairOf(items[1..][i]).Some? && PairOf(items[1..][i]).value.0 == k;
        assert items[i + 1] == items[1..][i];
      }
      assert pair.0 in NamedKeys(items);
    }
  }

  /** `items` holds no pair for the key `k` after position `i`. */
  predicate LastPairFor(items: seq<Value>, i: nat, k: string)
    requires i < |items|
  {
    forall j :: i < j < |items| ==> PairOf(items[j]).None? || PairOf(items[j]).value.0 != k
  }

  /**
    Loading a sequence of pairs: a key no pair names keeps its value, and a
    key several pairs name ends up with the value of the last of them.
  */
  lemma {:induction false} LastPairWins(data: map<string, Value>, items: seq<Value>)
    requires forall i :: 0 <= i < |items| ==> PairOf(items[i]).Some?
    ensures var r := UpdateFromPairs(data, items);
      && r.raised.None?
      && (forall k :: k in data && (forall i :: 0 <= i < |items| ==> PairOf(items[i]).value.0 != k) ==> r.data[k] == data[k])
      && (forall i :: 0 <= i < |items| && LastPairFor(items, i, PairOf(items[i]).value.0) ==>
            PairOf(items[i]).value.0 in r.data && r.data[PairOf(items[i]).value.0] == PairOf(items[i]).value.1)
    decreases |items|
  {
    if items != [] {
      var pair := PairOf(items[0]).value;
      var rest := items[1..];
      LastPairWins(data[pair.0 := pair.1], rest);
      var r := UpdateFromPairs(data, items);
      assert r == UpdateFromPairs(data[pair.0 := pair.1], rest);
      forall i | 0 <= i < |items| && LastPairFor(items, i, PairOf(items[i]).value.0)
        ensures PairOf(items[i]).value.0 in r.data && r.data[PairOf(items[i]).value.0] == PairOf(items[i]).value.1
      {
        if i == 0 {
          forall j | 0 <= j < |rest| ensures PairOf(rest[j]).value.0 != pair.0 {
            assert rest[j] == items[j + 1];
          }
        } else {
          assert rest[i - 1] == items[i];
          assert LastPairFor(rest, i - 1, PairOf(rest[i - 1]).value.0) by {
            forall j | i - 1 < j < |rest| ensures PairOf(rest[j]).None? || PairOf(rest[j]).value.0 != PairOf(items[i]).value.0 {
              assert rest[j] == items[j + 1];
            }
          }
        }
      }
      forall k | k in data && (forall i :: 0 <= i < |items| ==> PairOf(items[i]).value.0 != k)
        ensures r.data[k] == data[k]
      {
        forall j | 0 <= j < |rest| ensures PairOf(rest[j]).value.0 != k {
          assert rest[j] == items[j + 1];
        }
      }
    }
  }

  /**
    `load`: `dict.update` with whatever `yaml.safe_load` read. A mapping's
    top-level keys replace the defaults'; a list is read as key/value pairs;
    an empty file (`None`), a number or a boolean raises `TypeError`; a
    non-empty string raises `ValueError`, its characters not being pairs.
  */
  function Merge(data: map<string, Value>, document: Option<Value>): (r: Loaded)
    ensures document.None? ==> r == Loaded(data, None)
    ensures document.Some? && document.value.Dict? ==>
      && r.raised.None?
      && r.data.Keys == data.Keys + document.value.entries.Keys
      && (forall k :: k in document.value.entries ==> r.data[k] == document.value.entries[k])
      && (forall k :: k in data && k !in document.value.entries ==> r.data[k] == data[k])
    ensures document.Some? && (document.value.Null? || document.value.Num? || document.value.Bool?) ==>
      r.data == data && r.raised.Some? && r.raised.value.TypeError?
    ensures document.Some? && document.value.Str? ==>
      r.data == data && (r.raised.None? <==> document.value.s == "")
    ensures data.Keys <= r.data.Keys
  {
    match document
    case None => Loaded(data, None)
    case Some(Dict(entries)) => Loaded(data + entries, None)
    case Some(List(items)) => UpdateFromPairs(data, items)
    case Some(Str(s)) =>
      if s == "" then Loaded(data, None)
      else Loaded(data, Some(ValueError("dictionary update sequence element has length 1; 2 is required")))
    case Some(_) => Loaded(data, Some(TypeError("object is not iterable")))
  }

  /**
    The merge is shallow: under a key the document sets, every path reads what
    the document alone holds there, so a nested dictionary of the document
    replaces the default one wholesale.
  */
  lemma MergeIsShallow(data: map<string, Value>, document: map<string, Value>, k: string, rest: seq<string>)
    requires k in document
    ensures Lookup(Dict(Merge(data, Some(Dict(document))).data), [k] + rest) == Lookup(document[k], rest)
  {
    assert ([k] + rest)[1..] == rest;
  }

  class Config {
    var data: map<string, Value>

    /** The first step of `__init__`: a copy of the defaults. */
    constructor()
      ensures data == DefaultConfig()
    {
      data := DefaultConfig();
    }

    /**
      `__init__`: the defaults, then `load` with the document found on disk, if
      any. When `load` raises, so does `__init__`, and no configuration exists.
    */
    static method Create(document: Option<Value>) returns (r: Result<Config>)
      ensures r.Success? <==> Merge(DefaultConfig(), document).raised.None?
      ensures r.Success? ==> fresh(r.value) && r.value.data == Merge(DefaultConfig(), document).data
      ensures r.Failure? ==> r.error == Merge(DefaultConfig(), document).raised.value
    {
      var config := new Config();
      var loaded := config.Load(document);
      if loaded.Failure? {
        return Failure(loaded.error);
      }
      return Success(config);
    }

    /** `load`: `dict.update` with the document, when there is one; the exception it raises is passed on. */
    method Load(document: Option<Value>) returns (r: Result<()>)
      modifies this
      ensures data == Merge(old(data), document).data
      ensures r.Success? <==> Merge(old(data), document).raised.None?
      ensures r.Failure? ==> r.error == Merge(old(data), document).raised.value
    {
      var loaded := Merge(data, document);
      data := loaded.data;
      if loaded.raised.Some? {
        return Failure(loaded.raised.value);
      }
      return Success(());
    }

    /** `get`: the value at the dotted path, or `default` when the walk stops early. */
    method Get(key: string, default: Value) returns (r: Value)
      ensures Lookup(Dict(data), PathOf(key)).Some? ==> r == Lookup(Dict(data), PathOf(key)).value
      ensures Lookup(Dict(data), PathOf(key)).None? ==> r == default
    {
      var keys := PathOf(key);
      var value := Dict(data);
      var i := 0;
      while i < |keys|
        invariant 0 <= i <= |keys|
        invariant Lookup(Dict(data), keys) == Lookup(value, keys[i..])
      {
        if !value.Dict? || keys[i] !in value.entries {
          return default;
        }
        assert keys[i..][1..] == keys[i + 1..];
        value := value.entries[keys[i]];
        i := i + 1;
      }
      assert keys[i..] == [];
      r := value;
    }

    /** `set`: store `value` at the dotted path. */
    method Set(key: string, value: Value)
      modifies this
      ensures data == Store(old(data), PathOf(key), value)
      ensures Lookup(Dict(data), PathOf(key)) == Some(value)
    {
      data := Store(data, PathOf(key), value);
      LookupAfterStore(old(data), PathOf(key), value);
    }
  }
}
