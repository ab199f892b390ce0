/**
 * The query-string helpers `toParams` and `toQuery` of the browser widget
 * (identical in client/kament.js and client/kament.jsx). `toQuery` folds an
 * object's keys into `key=value` pairs separated by a delimiter; `toParams`
 * folds the `&`-pieces of a query string into a plain object.
 */
module Query {
  import opened Wrappers
  import opened Text

  /** A value stored by `toParams`: the text after the first "=", or `undefined`. */
  datatype Value = Undefined | Str(text: string)

  /** One own property of a plain object. */
  datatype Entry = Entry(key: string, value: Value)

  /** A plain object: its own properties in insertion order. */
  type Dict = seq<Entry>

  /**
   * The object handed to `toQuery`: its keys in `Object.keys` order, each with
   * its value as the template literal prints it.
   */
  type Params = seq<(string, string)>

  const DefaultDelimiter: string := "&"

  /** `values[key]`, `None` when the object has no such own property. */
  function Lookup(d: Dict, key: string): (r: Option<Value>)
    ensures r.Some? <==> exists i :: 0 <= i < |d| && d[i].key == key
  {
    if d == [] then None
    else if d[0].key == key then Some(d[0].value)
    else Lookup(d[1..], key)
  }

  /** Each key is an own property once, as in any JavaScript object. */
  predicate DistinctKeys(d: Dict) {
    forall i, j :: 0 <= i < j < |d| ==> d[i].key != d[j].key
  }

  /**
   * `values[key] = value`: a new key is appended, an existing key keeps its
   * place and takes the new value.
   */
  function Assign(d: Dict, e: Entry): (r: Dict)
    ensures Lookup(r, e.key) == Some(e.value)
    ensures forall k :: k != e.key ==> Lookup(r, k) == Lookup(d, k)
    ensures Lookup(d, e.key).None? ==> r == d + [e]
  {
    if d == [] then [e]
    else if d[0].key == e.key then [e] + d[1..]
    else [d[0]] + Assign(d[1..], e)
  }

  /** Assigning an existing key keeps every key in its place. */
  lemma {:induction false} AssignKeepsKeys(d: Dict, e: Entry)
    requires Lookup(d, e.key).Some?
    ensures |Assign(d, e)| == |d|
    ensures forall i :: 0 <= i < |d| ==> Assign(d, e)[i].key == d[i].key
  {
    if d[0].key != e.key {
      AssignKeepsKeys(d[1..], e);
      var r := Assign(d, e);
      assert r == [d[0]] + Assign(d[1..], e);
      forall i | 0 < i < |d| ensures r[i].key == d[i].key {
        assert r[i] == Assign(d[1..], e)[i - 1];
      }
    }
  }

  /** Assigning to an object whose keys are distinct keeps them distinct. */
  lemma AssignKeepsDistinct(d: Dict, e: Entry)
    requires DistinctKeys(d)
    ensures DistinctKeys(Assign(d, e))
  {
    if Lookup(d, e.key).Some? {
      AssignKeepsKeys(d, e);
    }
  }

  /** `key=value`, the text `toQuery` emits for one key. */
  function Pair(key: string, value: string): string {
    key + "=" + value
  }

  /** The pairs of `params`, in key order. */
  function Pairs(params: Params): (r: seq<string>)
    ensures |r| == |params|
  {
    seq(|params|, i requires 0 <= i < |params| => Pair(params[i].0, params[i].1))
  }

  /**
   * The `keys.reduce` of `toQuery` from `index` on, with `str` accumulated so
   * far: the delimiter follows every pair but the last.
   */
  function QueryFold(params: Params, delimiter: string, str: string, index: nat): string
    requires index <= |params|
    decreases |params| - index
  {
    if index == |params| then str
    else
      var query := str + Pair(params[index].0, params[index].1);
      QueryFold(params, delimiter,
                if index < |params| - 1 then query + delimiter else query,
                index + 1)
  }

  /** `toQuery(params, delimiter)`. */
  function ToQuery(params: Params, delimiter: string): string {
    QueryFold(params, delimiter, "", 0)
  }

  /** `query.replace(/^\??\//, "")`: drops a leading "/" or "?/", and nothing else. */
  function StripLeadingSlash(query: string): (r: string)
    ensures |query| >= 1 && query[0] == '/' ==> "/" + r == query
    ensures |query| >= 2 && query[..2] == "?/" ==> "?/" + r == query
    ensures !(|query| >= 1 && query[0] == '/') && !(|query| >= 2 && query[..2] == "?/") ==> r == query
  {
    if |query| >= 1 && query[0] == '/' then query[1..]
    else if |query| >= 2 && query[..2] == "?/" then query[2..]
    else query
  }

  /** `const [key, value] = param.split("=")`. */
  function EntryOf(piece: string): Entry {
    var parts := Split(piece, "=");
    Entry(parts[0], if |parts| > 1 then Str(parts[1]) else Undefined)
  }

  /** The `reduce` of `toParams`: assign every piece, left to right. */
  function AssignAll(values: Dict, pieces: seq<string>): Dict
    decreases |pieces|
  {
    if pieces == [] then values
    else AssignAll(Assign(values, EntryOf(pieces[0])), pieces[1..])
  }

  /** `toParams(query)`. */
  function ToParams(query: string): Dict {
    AssignAll([], Split(StripLeadingSlash(query), "&"))
  }

  /** What `toParams` should give back for `params`: every value a string. */
  function AsDict(params: Params): (r: Dict)
    ensures |r| == |params|
  {
    seq(|params|, i requires 0 <= i < |params| => Entry(params[i].0, Str(params[i].1)))
  }

  // ---------------------------------------------------------------- toQuery

  lemma {:induction false} QueryFoldJoins(params: Params, delimiter: string, str: string, index: nat)
    requires index <= |params|
    ensures QueryFold(params, delimiter, str, index) == str + Join(Pairs(params)[index..], delimiter)
    decreases |params| - index
  {
    if index < |params| {
      var query := str + Pair(params[index].0, params[index].1);
      var rest := Pairs(params)[index + 1..];
      assert Pairs(params)[index..] == [Pair(params[index].0, params[index].1)] + rest;
      if index < |params| - 1 {
        QueryFoldJoins(params, delimiter, query + delimiter, index + 1);
        assert ([Pair(params[index].0, params[index].1)] + rest)[1..] == rest;
      } else {
        QueryFoldJoins(params, delimiter, query, index + 1);
      }
    }
  }

  /**
   * `toQuery` is the pairs `key=value`, in key order, joined by the delimiter:
   * a delimiter between consecutive pairs and none after the last.
   */
  lemma ToQueryJoinsPairs(params: Params, delimiter: string)
    ensures ToQuery(params, delimiter) == Join(Pairs(params), delimiter)
  {
    QueryFoldJoins(params, delimiter, "", 0);
    assert Pairs(params)[0..] == Pairs(params);
  }

  /** `toQuery({})` is the empty string, whatever the delimiter. */
  lemma ToQueryEmpty(delimiter: string)
    ensures ToQuery([], delimiter) == ""
  {
  }

  /** The popup's window features: `toQuery({height: 600, width: 600}, ",")`. */
  lemma WindowFeatures()
    ensures ToQuery([("height", "600"), ("width", "600")], ",") == "height=600,width=600"
  {
    ToQueryJoinsPairs([("height", "600"), ("width", "600")], ",");
    assert Pair("height", "600") == "height=600";
    assert Pair("width", "600") == "width=600";
    assert Pairs([("height", "600"), ("width", "600")]) == ["height=600", "width=600"];
  }

  // --------------------------------------------------------------- toParams

  lemma {:induction false} JoinStartsWith(pieces: seq<string>, sep: string)
    requires |pieces| >= 1
    ensures |pieces[0]| <= |Join(pieces, sep)| && Join(pieces, sep)[..|pieces[0]|] == pieces[0]
    ensures |pieces| == 1 ==> Join(pieces, sep) == pieces[0]
    ensures |pieces| > 1 ==> Join(pieces, sep) == pieces[0] + sep + Join(pieces[1..], sep)
  {
  }

  lemma NoOccurrenceMeansAbsent(s: string, c: char)
    requires forall j :: 0 <= j ==> !OccursAt(s, [c], j)
    ensures c !in s
  {
    if c in s {
      var i :| 0 <= i < |s| && s[i] == c;
      OccursAtChar(s, c, i);
    }
  }

  /**
   * A piece splits at "=": the key is the text before the first "=", the
   * value the text between the first and the second "=", or `undefined`
   * when the piece has no "=".
   */
  lemma EntryOfShape(piece: string)
    ensures '=' !in EntryOf(piece).key
    ensures EntryOf(piece).value == Undefined <==> '=' !in piece
    ensures EntryOf(piece).value == Undefined ==> EntryOf(piece).key == piece
    ensures EntryOf(piece).value.Str? ==>
              var prefix := EntryOf(piece).key + "=" + EntryOf(piece).value.text;
              '=' !in EntryOf(piece).value.text &&
              |prefix| <= |piece| && piece[..|prefix|] == prefix
    // the value runs up to the second "=" or to the end of the piece
    ensures EntryOf(piece).value.Str? ==>
              var n := |EntryOf(piece).key| + 1 + |EntryOf(piece).value.text|;
              n == |piece| || piece[n] == '='
  {
    var parts := Split(piece, "=");
    SplitThenJoin(piece, "=");
    SplitPiecesAvoidSeparator(piece, "=", 0);
    NoOccurrenceMeansAbsent(parts[0], '=');
    JoinStartsWith(parts, "=");
    if |parts| > 1 {
      SplitPiecesAvoidSeparator(piece, "=", 1);
      NoOccurrenceMeansAbsent(parts[1], '=');
      JoinStartsWith(parts[1..], "=");
      assert piece == parts[0] + "=" + Join(parts[1..], "=");
      assert piece[|parts[0]|] == '=';
    }
  }

  /** `toParams("")` is an object with one key, the empty string, set to `undefined`. */
  lemma ToParamsEmpty()
    ensures ToParams("") == [Entry("", Undefined)]
  {
    assert IndexOf("", "&").None?;
    assert IndexOf("", "=").None?;
  }

  /** Every object `toParams` builds has each key once. */
  lemma {:induction false} AssignAllDistinct(values: Dict, pieces: seq<string>)
    requires DistinctKeys(values)
    ensures DistinctKeys(AssignAll(values, pieces))
    decreases |pieces|
  {
    if pieces != [] {
      AssignKeepsDistinct(values, EntryOf(pieces[0]));
      AssignAllDistinct(Assign(values, EntryOf(pieces[0])), pieces[1..]);
    }
  }

  /**
   * Duplicate keys: the last piece with a given key decides its value; a key
   * that no piece carries keeps the value it had before the fold.
   */
  lemma {:induction false} LastAssignmentWins(values: Dict, pieces: seq<string>, key: string)
    ensures forall i :: 0 <= i < |pieces| && EntryOf(pieces[i]).key == key &&
                        (forall j :: i < j < |pieces| ==> EntryOf(pieces[j]).key != key) ==>
              Lookup(AssignAll(values, pieces), key) == Some(EntryOf(pieces[i]).value)
    ensures (forall i :: 0 <= i < |pieces| ==> EntryOf(pieces[i]).key != key) ==>
              Lookup(AssignAll(values, pieces), key) == Lookup(values, key)
    decreases |pieces|
  {
    if pieces != [] {
      var next := Assign(values, EntryOf(pieces[0]));
      LastAssignmentWins(next, pieces[1..], key);
      forall i | 0 <= i < |pieces| && EntryOf(pieces[i]).key == key &&
                 (forall j :: i < j < |pieces| ==> EntryOf(pieces[j]).key != key)
        ensures Lookup(AssignAll(values, pieces), key) == Some(EntryOf(pieces[i]).value)
      {
        if i > 0 {
          assert pieces[1..][i - 1] == pieces[i];
          forall j | i - 1 < j < |pieces| - 1 ensures EntryOf(pieces[1..][j]).key != key {
            assert pieces[1..][j] == pieces[j + 1];
          }
        } else {
          forall j | 0 <= j < |pieces| - 1 ensures EntryOf(pieces[1..][j]).key != key {
            assert pieces[1..][j] == pieces[j + 1];
          }
        }
      }
      if forall i :: 0 <= i < |pieces| ==> EntryOf(pieces[i]).key != key {
        forall j | 0 <= j < |pieces| - 1 ensures EntryOf(pieces[1..][j]).key != key {
          assert pieces[1..][j] == pieces[j + 1];
        }
      }
    }
  }

  /** Text that survives both splits of `toParams` unchanged. */
  predicate Plain(s: string) {
    '&' !in s && '=' !in s
  }

  /** A first key that the leading "/" or "?/" stripping would eat into. */
  predicate Strippable(key: string) {
    (|key| >= 1 && key[0] == '/') || (|key| >= 2 && key[..2] == "?/")
  }

  lemma EntryOfPair(key: string, value: string)
    requires '=' !in key && '=' !in value
    ensures EntryOf(Pair(key, value)) == Entry(key, Str(value))
  {
    assert Join([key, value], "=") == Pair(key, value) by {
      assert [key, value][1..] == [value];
    }
    JoinThenSplit([key, value], '=');
  }

  lemma StripKeepsPair(key: string, rest: string)
    requires !Strippable(key)
    ensures StripLeadingSlash(key + "=" + rest) == key + "=" + rest
  {
    var s := key + "=" + rest;
    if |key| >= 2 {
      assert s[..2] == key[..2];
    } else if |key| == 1 {
      assert s[0] == key[0] && s[1] == '=';
    } else {
      assert s[0] == '=';
    }
  }

  lemma LookupAppend(d: Dict, e: Entry, key: string)
    ensures Lookup(d + [e], key) ==
            if Lookup(d, key).Some? then Lookup(d, key)
            else if e.key == key then Some(e.value) else None
  {
    if d != [] {
      assert (d + [e])[1..] == d[1..] + [e];
      LookupAppend(d[1..], e, key);
    }
  }

  lemma PairsCons(params: Params)
    requires params != []
    ensures Pairs(params) == [Pair(params[0].0, params[0].1)] + Pairs(params[1..])
    ensures AsDict(params) == [Entry(params[0].0, Str(params[0].1))] + AsDict(params[1..])
  {
  }

  /** Every key and value of `params` is `Plain`. */
  predicate PlainParams(params: Params) {
    forall i :: 0 <= i < |params| ==> Plain(params[i].0) && Plain(params[i].1)
  }

  /** No key occurs twice in `params`. */
  predicate DistinctParamKeys(params: Params) {
    forall i, j :: 0 <= i < j < |params| ==> params[i].0 != params[j].0
  }

  /** No key of `params` is present in `acc`. */
  predicate FreshKeys(acc: Dict, params: Params) {
    forall i :: 0 <= i < |params| ==> Lookup(acc, params[i].0).None?
  }

  lemma TailParams(params: Params)
    requires params != []
    requires PlainParams(params) && DistinctParamKeys(params)
    ensures PlainParams(params[1..]) && DistinctParamKeys(params[1..])
  {
    assert forall i :: 0 <= i < |params[1..]| ==> params[1..][i] == params[i + 1];
  }

  lemma FreshAfterAppend(acc: Dict, e: Entry, params: Params)
    requires params != []
    requires e.key == params[0].0
    requires DistinctParamKeys(params) && FreshKeys(acc, params)
    ensures FreshKeys(acc + [e], params[1..])
  {
    forall i | 0 <= i < |params[1..]| ensures Lookup(acc + [e], params[1..][i].0).None? {
      assert params[1..][i] == params[i + 1];
      LookupAppend(acc, e, params[i + 1].0);
    }
  }

  /** Assigning the first pair of fresh, plain `params` appends its entry. */
  lemma AssignAllStep(acc: Dict, params: Params)
    requires params != []
    requires Plain(params[0].0) && Plain(params[0].1)
    requires Lookup(acc, params[0].0).None?
    ensures AssignAll(acc, Pairs(params)) ==
            AssignAll(acc + [Entry(params[0].0, Str(params[0].1))], Pairs(params[1..]))
  {
    PairsCons(params);
    EntryOfPair(params[0].0, params[0].1);
  }

  lemma {:induction false} AssignAllFresh(acc: Dict, params: Params)
    requires PlainParams(params) && DistinctParamKeys(params) && FreshKeys(acc, params)
    ensures AssignAll(acc, Pairs(params)) == acc + AsDict(params)
    decreases |params|
  {
    if params != [] {
      var e := Entry(params[0].0, Str(params[0].1));
      AssignAllStep(acc, params);
      FreshAfterAppend(acc, e, params);
      TailParams(params);
      AssignAllFresh(acc + [e], params[1..]);
      PairsCons(params);
    }
  }

  /**
   * Round trip: a non-empty object whose keys and values hold neither "&"
   * nor "=", and whose first key does not begin with "/" or "?/", comes back
   * from `toParams(toQuery(params, "&"))` with the same keys, in the same
   * order, and the same (string) values.
   */
  lemma ParamsOfQuery(params: Params)
    requires |params| >= 1
    requires PlainParams(params) && DistinctParamKeys(params)
    requires !Strippable(params[0].0)
    ensures ToParams(ToQuery(params, DefaultDelimiter)) == AsDict(params)
  {
    var pairs := Pairs(params);
    var query := Join(pairs, "&");
    ToQueryJoinsPairs(params, "&");
    JoinStartsWith(pairs, "&");
    assert query == params[0].0 + "=" + query[|params[0].0| + 1..] by {
      assert query[..|pairs[0]|] == params[0].0 + "=" + params[0].1;
      assert query[..|params[0].0| + 1] == params[0].0 + "=";
    }
    StripKeepsPair(params[0].0, query[|params[0].0| + 1..]);
    JoinThenSplit(pairs, '&');
    AssignAllFresh([], params);
  }
}
