/**
 Reading a JSON value off the decoder. The parser keeps one partly built `root` and calls itself for
 nested values; what it has to return is defined on the events that remain, and on document trees.
 */
module JsonEvents {
  import opened Wrappers
  import opened JsonValues
  import opened YamlEvents
  import opened YamlDecoding
  import opened YamlTrees

  // `json::Value::from_str` on a plain scalar.
  type Reader = string -> Option<Json>

  type Parsed = (Result<Json, DecodeError>, seq<Item>)

  function GetValue(s: string, style: Style, read: Reader): Json {
    if style.PlainStyle? then
      if s == "null" || s == "NaN" then Null
      else if s == "true" then Bool(true)
      else if s == "false" then Bool(false)
      else if read(s).Some? then read(s).value
      else String(s)
    else String(s)
  }

  // The parser's loop as a function of the value built so far and what remains to be delivered.
  function Loop(root: Option<Json>, items: seq<Item>, read: Reader): (r: Parsed)
    ensures |r.1| <= |items|
    ensures r.0.Ok? ==> |r.1| < |items|
    decreases |items|, if root.Some? then 1 else 0
  {
    if items == [] then (Err(ParserFailed), [])
    else if items[0].Failure? then (Err(YamlDeserialize(items[0].marker)), items[1..])
    else
      var d, rest := items[0].d, items[1..];
      if IsStart(d.e) then
        if root.None? then
          Loop(Some(if d.e.MappingStart? then Object(map[]) else Array([])), rest, read)
        else if root.value.Array? then
          var (v, left) := Loop(None, items, read);
          if v.Err? then (v, left) else Loop(Some(Array(root.value.items + [v.value])), left, read)
        else (Err(YamlDeserialize(d.marker)), items)
      else if IsEnd(d.e) then
        (Ok(if root.Some? then root.value else Null), rest)
      else if root.Some? && root.value.Object? then
        var (v, left) := Loop(None, rest, read);
        if v.Err? then (v, left) else Loop(Some(Object(root.value.fields[d.e.s := v.value])), left, read)
      else if root.Some? && root.value.Array? then
        Loop(Some(Array(root.value.items + [GetValue(d.e.s, d.e.style, read)])), rest, read)
      else (Ok(GetValue(d.e.s, d.e.style, read)), rest)
  }

  // The value with the marker of the first event looked at.
  function SpecParse(items: seq<Item>, read: Reader): (Result<(Json, Marker), DecodeError>, seq<Item>) {
    var (v, left) := Loop(None, items, read);
    if v.Err? then (Err(v.error), left)
    else (Ok((v.value, if items[0].Deliver? then items[0].d.marker else 0)), left)
  }

  // ---------- the parser ----------

  // `next` for the event just looked at.
  method Skip(decoder: YamlDecoder)
    requires decoder.Valid() && decoder.Remaining() != [] && decoder.Remaining()[0].Deliver?
    modifies decoder
    ensures decoder.Valid() && decoder.Remaining() == old(decoder.Remaining())[1..]
  {
    var _ := decoder.Next();
  }

  method ParseJson(decoder: YamlDecoder, read: Reader) returns (r: Result<(Json, Marker), DecodeError>)
    requires decoder.Valid()
    modifies decoder
    ensures decoder.Valid()
    ensures (r, decoder.Remaining()) == SpecParse(old(decoder.Remaining()), read)
    decreases |decoder.Remaining()|
  {
    var root: Option<Json> := None;
    var firstMarker: Option<Marker> := None;
    ghost var items := decoder.Remaining();
    while true
      invariant decoder.Valid()
      invariant Loop(root, decoder.Remaining(), read) == Loop(None, items, read)
      invariant if root.None? then decoder.Remaining() == items && firstMarker.None?
                else |decoder.Remaining()| < |items| && items[0].Deliver? && firstMarker == Some(items[0].d.marker)
      decreases |decoder.Remaining()|
    {
      var peeked := decoder.Peek();
      if peeked.Err? {
        return Err(peeked.error);
      }
      var Delivered(event, marker) := peeked.value;
      if firstMarker.None? {
        firstMarker := Some(marker);
      }
      if IsStart(event) {
        if root.None? {
          Skip(decoder);
          root := Some(if event.MappingStart? then Object(map[]) else Array([]));
        } else if root.value.Array? {
          var v := ParseJson(decoder, read);
          if v.Err? {
            return Err(v.error);
          }
          root := Some(Array(root.value.items + [v.value.0]));
        } else {
          return Err(YamlDeserialize(marker));
        }
      } else if IsEnd(event) {
        Skip(decoder);
        return Ok((if root.Some? then root.value else Null, firstMarker.value));
      } else {
        Skip(decoder);
        if root.Some? && root.value.Object? {
          var v := ParseJson(decoder, read);
          if v.Err? {
            return Err(v.error);
          }
          root := Some(Object(root.value.fields[event.s := v.value.0]));
        } else if root.Some? && root.value.Array? {
          root := Some(Array(root.value.items + [GetValue(event.s, event.style, read)]));
        } else {
          return Ok((GetValue(event.s, event.style, read), firstMarker.value));
        }
      }
    }
  }

  method FromYamlStr(events: seq<(ParserEvent, Marker)>, read: Reader) returns (r: Result<(Json, Marker), DecodeError>)
    ensures r == SpecParse(SpecRun(Spec(map[], []), events), read).0
  {
    var decoder := new YamlDecoder(events);
    r := ParseJson(decoder, read);
  }

  // ---------- the value of a document tree ----------

  type Env = map<nat, Json>

  // An alias has the value of the collection last closed under its anchor. None where the tree is not
  // JSON (a key that is not a scalar) or an alias names a scalar, an open collection or nothing.
  function JsonOf(n: Node, env: Env, read: Reader): Option<(Json, Env)>
    decreases n, 1
  {
    match n
    case ScalarNode(anchor, s, style, _, _) => Some((GetValue(s, style, read), env - {anchor}))
    case AliasNode(id, _) => if id in env then Some((env[id], env)) else None
    case SequenceNode(anchor, kids, _, _) => Bind(anchor, ItemsOf(kids, [], env, read))
    case MappingNode(anchor, kids, _, _) => Bind(anchor, FieldsOf(kids, map[], env, read))
  }

  function Bind(anchor: nat, v: Option<(Json, Env)>): Option<(Json, Env)> {
    if v.Some? && anchor > 0 then Some((v.value.0, v.value.1[anchor := v.value.0])) else v
  }

  function ItemsOf(kids: seq<Node>, done: seq<Json>, env: Env, read: Reader): Option<(Json, Env)>
    decreases kids, 0
  {
    if kids == [] then Some((Array(done), env))
    else
      var v := JsonOf(kids[0], env, read);
      if v.None? then None else ItemsOf(kids[1..], done + [v.value.0], v.value.1, read)
  }

  // Keys and values alternate; a key that comes again replaces the earlier value.
  function FieldsOf(kids: seq<Node>, done: map<string, Json>, env: Env, read: Reader): Option<(Json, Env)>
    decreases kids, 0
  {
    if kids == [] then Some((Object(done), env))
    else if |kids| == 1 || !kids[0].ScalarNode? then None
    else
      var v := JsonOf(kids[1], env - {kids[0].anchor}, read);
      if v.None? then None else FieldsOf(kids[2..], done[kids[0].s := v.value.0], v.value.1, read)
  }

  // ---------- the parser returns it ----------

  // Whatever follows, the parser reads exactly these events and returns `j`.
  ghost predicate ParsesTo(es: seq<Delivered>, j: Json, read: Reader) {
    && es != [] && !IsEnd(es[0].e)
    && forall suffix :: Loop(None, Items(es) + suffix, read) == (Ok(j), suffix)
  }

  lemma ArrayStep(done: seq<Json>, es: seq<Delivered>, j: Json, rest: seq<Item>, read: Reader)
    requires ParsesTo(es, j, read)
    ensures Loop(Some(Array(done)), Items(es) + rest, read) == Loop(Some(Array(done + [j])), rest, read)
  {
    var items := Items(es) + rest;
    assert items[0] == Deliver(es[0]);
    assert Loop(None, items, read) == (Ok(j), rest);
  }

  lemma ObjectStep(done: map<string, Json>, key: Delivered, es: seq<Delivered>, j: Json, rest: seq<Item>, read: Reader)
    requires key.e.Scalar? && ParsesTo(es, j, read)
    ensures Loop(Some(Object(done)), [Deliver(key)] + (Items(es) + rest), read)
         == Loop(Some(Object(done[key.e.s := j])), rest, read)
  {
    var items := [Deliver(key)] + (Items(es) + rest);
    assert items[1..] == Items(es) + rest;
    assert Loop(None, items[1..], read) == (Ok(j), rest);
  }

  // What is remembered as events is remembered as the value they parse to.
  ghost predicate Remembers(b: Bound, env: Env, read: Reader) {
    forall a :: a in env ==> a in b && ParsesTo(b[a], env[a], read)
  }

  lemma {:induction false} NodeParses(n: Node, b: Bound, env: Env, read: Reader)
    requires Remembers(b, env, read) && JsonOf(n, env, read).Some?
    ensures var (j, after) := JsonOf(n, env, read).value;
            var (es, bound) := Expand(n, b, false);
            ParsesTo(es, j, read) && Remembers(bound, after, read)
    decreases n, 1
  {
    match n
    case ScalarNode(_, s, style, _, m) => ScalarParses(Delivered(ScalarEvent(n), m), read);
    case AliasNode(_, _) =>
    case SequenceNode(_, kids, _, _) =>
      var last := Delivered(SequenceEnd, n.endMarker);
      ItemsParse(kids, [], b, env, last, read);
      CollectionParses(Delivered(SequenceStart, n.m), ExpandForest(kids, b, false).0, last,
                       Array([]), ItemsOf(kids, [], env, read).value.0, read);
    case MappingNode(_, kids, _, _) =>
      var last := Delivered(MappingEnd, n.endMarker);
      FieldsParse(kids, map[], b, env, last, read);
      CollectionParses(Delivered(MappingStart, n.m), ExpandForest(kids, b, false).0, last,
                       Object(map[]), FieldsOf(kids, map[], env, read).value.0, read);
  }

  lemma ScalarParses(d: Delivered, read: Reader)
    requires d.e.Scalar?
    ensures ParsesTo([d], GetValue(d.e.s, d.e.style, read), read)
  {
    forall suffix: seq<Item>
      ensures (Items([d]) + suffix)[1..] == suffix
    {
    }
  }

  // The events of a collection's children, followed by its end, turn `root` into `j`.
  ghost predicate Completes(root: Json, es: seq<Delivered>, last: Delivered, j: Json, read: Reader) {
    forall suffix :: Loop(Some(root), Items(es) + ([Deliver(last)] + suffix), read) == (Ok(j), suffix)
  }

  lemma CollectionParses(first: Delivered, inner: seq<Delivered>, last: Delivered, root: Json, j: Json, read: Reader)
    requires Completes(root, inner, last, j, read)
    requires (first.e.SequenceStart? && root == Array([])) || (first.e.MappingStart? && root == Object(map[]))
    ensures ParsesTo([first] + inner + [last], j, read)
  {
    var es := [first] + inner + [last];
    forall suffix: seq<Item>
      ensures Loop(None, Items(es) + suffix, read) == (Ok(j), suffix)
    {
      var items := Items(es) + suffix;
      assert items[0] == Deliver(first);
      assert items[1..] == Items(inner) + ([Deliver(last)] + suffix);
    }
  }

  lemma NothingCompletes(root: Json, last: Delivered, read: Reader)
    requires IsEnd(last.e)
    ensures Completes(root, [], last, root, read)
  {
    forall suffix: seq<Item>
      ensures Items([]) + ([Deliver(last)] + suffix) == [Deliver(last)] + suffix
      ensures ([Deliver(last)] + suffix)[1..] == suffix
    {
    }
  }

  lemma {:induction false} ItemsParse(
    kids: seq<Node>, done: seq<Json>, b: Bound, env: Env, last: Delivered, read: Reader)
    requires Remembers(b, env, read) && IsEnd(last.e) && ItemsOf(kids, done, env, read).Some?
    ensures var (j, after) := ItemsOf(kids, done, env, read).value;
            var (es, bound) := ExpandForest(kids, b, false);
            Completes(Array(done), es, last, j, read) && Remembers(bound, after, read)
    decreases kids, 0
  {
    if kids == [] {
      NothingCompletes(Array(done), last, read);
    } else {
      var v := JsonOf(kids[0], env, read).value;
      var first := Expand(kids[0], b, false);
      NodeParses(kids[0], b, env, read);
      ItemsParse(kids[1..], done + [v.0], first.1, v.1, last, read);
      var others := ExpandForest(kids[1..], first.1, false);
      forall suffix: seq<Item>
        ensures Loop(Some(Array(done)), Items(first.0 + others.0) + ([Deliver(last)] + suffix), read)
             == Loop(Some(Array(done + [v.0])), Items(others.0) + ([Deliver(last)] + suffix), read)
      {
        ItemsRegroup(first.0, others.0, [Deliver(last)] + suffix);
        ArrayStep(done, first.0, v.0, Items(others.0) + ([Deliver(last)] + suffix), read);
      }
    }
  }

  lemma ItemsRegroup(a: seq<Delivered>, b: seq<Delivered>, c: seq<Item>)
    ensures Items(a + b) + c == Items(a) + (Items(b) + c)
  {
  }

  lemma KeyExpansion(key: Node, kids: seq<Node>, b: Bound)
    requires key.ScalarNode?
    ensures var d := Delivered(ScalarEvent(key), key.m);
            var (es, after) := ExpandForest(kids, Expand(key, b, false).1, false);
            ExpandForest([key] + kids, b, false) == ([d] + es, after)
  {
    assert ([key] + kids)[1..] == kids;
  }

  lemma {:induction false} FieldsParse(
    kids: seq<Node>, done: map<string, Json>, b: Bound, env: Env, last: Delivered, read: Reader)
    requires Remembers(b, env, read) && IsEnd(last.e) && FieldsOf(kids, done, env, read).Some?
    ensures var (j, after) := FieldsOf(kids, done, env, read).value;
            var (es, bound) := ExpandForest(kids, b, false);
            Completes(Object(done), es, last, j, read) && Remembers(bound, after, read)
    decreases kids, 0
  {
    if kids == [] {
      NothingCompletes(Object(done), last, read);
    } else {
      var key, d := kids[0], Delivered(ScalarEvent(kids[0]), kids[0].m);
      var b' := Expand(key, b, false).1;
      var v := JsonOf(kids[1], env - {key.anchor}, read).value;
      NodeParses(kids[1], b', env - {key.anchor}, read);
      var value := Expand(kids[1], b', false);
      FieldsParse(kids[2..], done[key.s := v.0], value.1, v.1, last, read);
      var others := ExpandForest(kids[2..], value.1, false);
      assert kids == [key] + kids[1..] && kids[1..][1..] == kids[2..];
      KeyExpansion(key, kids[1..], b);
      forall suffix: seq<Item>
        ensures Loop(Some(Object(done)), Items([d] + (value.0 + others.0)) + ([Deliver(last)] + suffix), read)
             == Loop(Some(Object(done[key.s := v.0])), Items(others.0) + ([Deliver(last)] + suffix), read)
      {
        var tail := Items(others.0) + ([Deliver(last)] + suffix);
        ItemsRegroup([d], value.0 + others.0, [Deliver(last)] + suffix);
        ItemsRegroup(value.0, others.0, [Deliver(last)] + suffix);
        assert Items([d]) == [Deliver(d)];
        ObjectStep(done, d, value.0, v.0, tail, read);
      }
    }
  }

  // Main result: a document whose aliases name closed collections reads as its tree with each alias standing
  // for the value of its collection, and exactly its events are used.
  lemma DocumentReadsAsJson(n: Node, m: Marker, read: Reader)
    requires JsonOf(n, map[], read).Some?
    ensures var events := [(StreamStart, 0), (DocumentStart, 0)] + ForestEvents([n]) + [(DocumentEnd, m)];
            Loop(None, SpecRun(Spec(map[], []), events), read) == (Ok(JsonOf(n, map[], read).value.0), [Failure(m)])
  {
    DocumentDelivers([n], m);
    NodeParses(n, map[], map[], read);
    assert ExpandForest([n][1..], Expand(n, map[], false).1, false).0 == [];
    var es := Expand(n, map[], false).0;
    assert ExpandForest([n], map[], false).0 == es + [] == es;
    assert ParsesTo(es, JsonOf(n, map[], read).value.0, read);
  }

  // With the value comes the place of its first event.
  lemma MarkerIsOfFirst(items: seq<Item>, read: Reader)
    ensures SpecParse(items, read).0.Ok? ==>
              items != [] && items[0].Deliver? && SpecParse(items, read).0.value.1 == items[0].d.marker
  {
  }

  // ---------- printing and reading back ----------

  // How numbers are written, in which style each text is, and whether null is written as `NaN`.
  datatype Printer = Printer(number: JsonNumber -> string, style: string -> Style, nan: bool)

  ghost function Render(j: Json, pr: Printer): Node
    decreases j, 1
  {
    match j
    case Null => ScalarNode(0, if pr.nan then "NaN" else "null", PlainStyle, None, 0)
    case Bool(b) => ScalarNode(0, if b then "true" else "false", PlainStyle, None, 0)
    case Number(k) => ScalarNode(0, pr.number(k), PlainStyle, None, 0)
    case String(s) => ScalarNode(0, s, pr.style(s), None, 0)
    case Array(items) => SequenceNode(0, RenderItems(items, pr), 0, 0)
    case Object(fields) => MappingNode(0, RenderFields(j, fields.Keys, pr), 0, 0)
  }

  ghost function RenderItems(items: seq<Json>, pr: Printer): seq<Node>
    decreases items, 0
  {
    if items == [] then [] else [Render(items[0], pr)] + RenderItems(items[1..], pr)
  }

  ghost function SomeKey(keys: set<string>): (k: string)
    requires keys != {}
    ensures k in keys
  {
    var k :| k in keys;
    k
  }

  // The fields of an object that `keys` names, in some order.
  ghost function RenderFields(j: Json, keys: set<string>, pr: Printer): seq<Node>
    requires j.Object? && keys <= j.fields.Keys
    decreases j, 0, |keys|
  {
    if keys == {} then []
    else
      var k := SomeKey(keys);
      [ScalarNode(0, k, pr.style(k), None, 0), Render(j.fields[k], pr)] + RenderFields(j, keys - {k}, pr)
  }

  // The tree with every number and text replaced by what its scalar is read as.
  ghost function Reread(j: Json, pr: Printer, read: Reader): Json
    decreases j, 1
  {
    match j
    case Number(k) => GetValue(pr.number(k), PlainStyle, read)
    case String(s) => GetValue(s, pr.style(s), read)
    case Array(items) => Array(RereadItems(items, pr, read))
    case Object(fields) => Object(map k | k in fields :: Reread(fields[k], pr, read))
    case _ => j
  }

  ghost function RereadItems(items: seq<Json>, pr: Printer, read: Reader): (r: seq<Json>)
    ensures |r| == |items|
    decreases items, 0
  {
    if items == [] then [] else [Reread(items[0], pr, read)] + RereadItems(items[1..], pr, read)
  }

  const KEYWORDS: set<string> := {"null", "NaN", "true", "false"}

  // The numbers that occur in a tree are printed as plain text that is read as the same number, and the texts in it
  // that are printed plain are neither keywords nor read as anything else.
  ghost predicate ScalarsReadBack(j: Json, pr: Printer, read: Reader)
    decreases j, 1
  {
    match j
    case Number(k) => read(pr.number(k)) == Some(j) && pr.number(k) !in KEYWORDS
    case String(s) =>
      pr.style(s) == PlainStyle ==> s !in KEYWORDS && (read(s) == None || read(s) == Some(j))
    case Array(items) => ItemsReadBack(items, pr, read)
    case Object(fields) => forall k :: k in fields ==> ScalarsReadBack(fields[k], pr, read)
    case _ => true
  }

  ghost predicate ItemsReadBack(items: seq<Json>, pr: Printer, read: Reader)
    decreases items, 0
  {
    items != [] ==> ScalarsReadBack(items[0], pr, read) && ItemsReadBack(items[1..], pr, read)
  }

  lemma {:induction false} SameExactlyIfScalarsReadBack(j: Json, pr: Printer, read: Reader)
    ensures Reread(j, pr, read) == j <==> ScalarsReadBack(j, pr, read)
    decreases j, 1
  {
    match j
    case Array(items) => ItemsSameExactly(items, pr, read);
    case Object(fields) =>
      forall k | k in fields {
        SameExactlyIfScalarsReadBack(fields[k], pr, read);
      }
      FieldsSameExactly(j, pr, read);
    case _ =>
  }

  lemma FieldsSameExactly(j: Json, pr: Printer, read: Reader)
    requires j.Object?
    ensures Reread(j, pr, read) == j <==> forall k :: k in j.fields ==> Reread(j.fields[k], pr, read) == j.fields[k]
  {
    var again := Reread(j, pr, read);
    assert again.fields.Keys == j.fields.Keys;
    if forall k :: k in j.fields ==> Reread(j.fields[k], pr, read) == j.fields[k] {
      assert again.fields == j.fields;
    }
    forall k | again == j && k in j.fields
      ensures Reread(j.fields[k], pr, read) == j.fields[k]
    {
      assert again.fields[k] == j.fields[k];
    }
  }

  lemma {:induction false} ItemsSameExactly(items: seq<Json>, pr: Printer, read: Reader)
    ensures RereadItems(items, pr, read) == items <==> ItemsReadBack(items, pr, read)
    decreases items, 0
  {
    if items != [] {
      SameExactlyIfScalarsReadBack(items[0], pr, read);
      ItemsSameExactly(items[1..], pr, read);
      var again := RereadItems(items, pr, read);
      assert again[0] == Reread(items[0], pr, read) && again[1..] == RereadItems(items[1..], pr, read);
      assert items == [items[0]] + items[1..];
    }
  }

  lemma {:induction false} RenderedValue(j: Json, pr: Printer, env: Env, read: Reader)
    requires 0 !in env
    ensures JsonOf(Render(j, pr), env, read) == Some((Reread(j, pr, read), env))
    decreases j, 1
  {
    assert env - {0} == env;
    match j
    case Array(items) =>
      RenderedItems(items, [], pr, env, read);
      assert [] + RereadItems(items, pr, read) == RereadItems(items, pr, read);
    case Object(fields) =>
      RenderedFields(j, fields.Keys, map[], pr, env, read);
    case _ =>
  }

  lemma {:induction false} RenderedItems(
    items: seq<Json>, done: seq<Json>, pr: Printer, env: Env, read: Reader)
    requires 0 !in env
    ensures ItemsOf(RenderItems(items, pr), done, env, read)
         == Some((Array(done + RereadItems(items, pr, read)), env))
    decreases items, 0
  {
    if items == [] {
      assert done + [] == done;
    } else {
      var first := Reread(items[0], pr, read);
      RenderedValue(items[0], pr, env, read);
      RenderedItems(items[1..], done + [first], pr, env, read);
      var nodes := RenderItems(items, pr);
      assert nodes[1..] == RenderItems(items[1..], pr);
      assert done + [first] + RereadItems(items[1..], pr, read) == done + RereadItems(items, pr, read);
    }
  }

  lemma FieldStep(
    k: string, style: Style, value: Node, more: seq<Node>, done: map<string, Json>, j: Json, env: Env, read: Reader)
    requires 0 !in env && JsonOf(value, env, read) == Some((j, env))
    ensures FieldsOf([ScalarNode(0, k, style, None, 0), value] + more, done, env, read)
         == FieldsOf(more, done[k := j], env, read)
  {
    var nodes := [ScalarNode(0, k, style, None, 0), value] + more;
    assert nodes[2..] == more;
    assert env - {0} == env;
  }

  lemma {:induction false} RenderedFields(
    j: Json, keys: set<string>, done: map<string, Json>, pr: Printer, env: Env, read: Reader)
    requires 0 !in env
    requires j.Object? && keys <= j.fields.Keys && done == Reread(j, pr, read).fields - keys
    ensures FieldsOf(RenderFields(j, keys, pr), done, env, read) == Some((Reread(j, pr, read), env))
    decreases j, 0, |keys|
  {
    var again := Reread(j, pr, read).fields;
    if keys == {} {
      assert done == again;
    } else {
      var k := SomeKey(keys);
      RenderedValue(j.fields[k], pr, env, read);
      FieldStep(k, pr.style(k), Render(j.fields[k], pr), RenderFields(j, keys - {k}, pr), done, again[k], env, read);
      OneFieldMore(again, keys, k);
      RenderedFields(j, keys - {k}, done[k := again[k]], pr, env, read);
    }
  }

  lemma OneFieldMore(fields: map<string, Json>, keys: set<string>, k: string)
    requires k in keys && k in fields
    ensures (fields - keys)[k := fields[k]] == fields - (keys - {k})
  {
  }

  // Main result: printed as events and followed by anything, every JSON tree is read back and only its own
  // events are used -- as the same tree exactly if the scalars in it read back as themselves.
  lemma PrintedJsonReadsBack(j: Json, pr: Printer, read: Reader, suffix: seq<Item>)
    ensures Loop(None, Items(Expand(Render(j, pr), map[], false).0) + suffix, read)
         == (Ok(Reread(j, pr, read)), suffix)
    ensures Reread(j, pr, read) == j <==> ScalarsReadBack(j, pr, read)
  {
    RenderedValue(j, pr, map[], read);
    NodeParses(Render(j, pr), map[], map[], read);
    SameExactlyIfScalarsReadBack(j, pr, read);
  }

  // What a scalar is read as, whatever follows it.
  lemma ScalarIsRead(s: string, style: Style, marker: Marker, read: Reader, suffix: seq<Item>)
    ensures var (r, left) := Loop(None, [Deliver(Delivered(Scalar(s, style, None), marker))] + suffix, read);
            && left == suffix
            && (style != PlainStyle ==> r == Ok(String(s)))
            && (style == PlainStyle && s !in KEYWORDS ==> r == Ok(if read(s).Some? then read(s).value else String(s)))
            && (style == PlainStyle && s in {"null", "NaN"} ==> r == Ok(Null))
            && (style == PlainStyle && s == "true" ==> r == Ok(Bool(true)))
            && (style == PlainStyle && s == "false" ==> r == Ok(Bool(false)))
  {
    var items := [Deliver(Delivered(Scalar(s, style, None), marker))] + suffix;
    assert items[1..] == suffix;
  }

  // A key whose value brought no events: the mapping's end is taken for the value, and the mapping goes on.
  lemma MissingValueTakesTheEnd(done: map<string, Json>, key: Delivered, end: Delivered, rest: seq<Item>, read: Reader)
    requires key.e.Scalar? && IsEnd(end.e)
    ensures Loop(Some(Object(done)), [Deliver(key)] + ([Deliver(end)] + rest), read)
         == Loop(Some(Object(done[key.e.s := Null])), rest, read)
  {
    var ended := [Deliver(end)] + rest;
    assert ended[1..] == rest;
    assert Loop(None, ended, read) == (Ok(Null), rest);
    assert ([Deliver(key)] + ended)[1..] == ended;
  }

  // So `{a: &x b, c: *x}` is refused: nothing is delivered for the alias.
  lemma ScalarAliasTakesTheEnd(read: Reader)
    ensures var es := [Delivered(MappingStart, 0), Delivered(Scalar("a", QuotedStyle, None), 1),
                       Delivered(Scalar("b", QuotedStyle, None), 2), Delivered(Scalar("c", QuotedStyle, None), 3),
                       Delivered(MappingEnd, 5)];
            var n := MappingNode(0, [ScalarNode(0, "a", QuotedStyle, None, 1), ScalarNode(1, "b", QuotedStyle, None, 2),
                                     ScalarNode(0, "c", QuotedStyle, None, 3), AliasNode(1, 4)], 0, 5);
            && Expand(n, map[], false).0 == es
            && Loop(None, Items(es) + [Failure(6)], read) == (Err(YamlDeserialize(6)), [])
  {
    ScalarAliasExpands();
    var a, b, c := Scalar("a", QuotedStyle, None), Scalar("b", QuotedStyle, None), Scalar("c", QuotedStyle, None);
    var es := [Delivered(MappingStart, 0), Delivered(a, 1), Delivered(b, 2), Delivered(c, 3), Delivered(MappingEnd, 5)];
    var tail := [Deliver(Delivered(c, 3))] + ([Deliver(Delivered(MappingEnd, 5))] + [Failure(6)]);
    ScalarParses(Delivered(b, 2), read);
    ObjectStep(map[], Delivered(a, 1), [Delivered(b, 2)], String("b"), tail, read);
    MissingValueTakesTheEnd(map["a" := String("b")], Delivered(c, 3), Delivered(MappingEnd, 5), [Failure(6)], read);
    FailureEndsParsing(Some(Object(map["a" := String("b")]["c" := Null])), 6, read);
    assert (Items(es) + [Failure(6)])[1..] == [Deliver(Delivered(a, 1))] + (Items([Delivered(b, 2)]) + tail);
    assert (Items(es) + [Failure(6)])[0] == Deliver(Delivered(MappingStart, 0));
  }

  lemma FailureEndsParsing(root: Option<Json>, m: Marker, read: Reader)
    ensures Loop(root, [Failure(m)], read) == (Err(YamlDeserialize(m)), [])
  {
  }

  lemma ScalarAliasExpands()
    ensures var n := MappingNode(0, [ScalarNode(0, "a", QuotedStyle, None, 1), ScalarNode(1, "b", QuotedStyle, None, 2),
                                     ScalarNode(0, "c", QuotedStyle, None, 3), AliasNode(1, 4)], 0, 5);
            Expand(n, map[], false).0 ==
            [Delivered(MappingStart, 0), Delivered(Scalar("a", QuotedStyle, None), 1),
             Delivered(Scalar("b", QuotedStyle, None), 2), Delivered(Scalar("c", QuotedStyle, None), 3),
             Delivered(MappingEnd, 5)]
  {
    var a, b, c := ScalarNode(0, "a", QuotedStyle, None, 1), ScalarNode(1, "b", QuotedStyle, None, 2),
                   ScalarNode(0, "c", QuotedStyle, None, 3);
    var alias := AliasNode(1, 4);
    var bound: Bound := map[1 := []];
    assert [a, b, c, alias] == [a] + [b, c, alias] && [b, c, alias] == [b] + [c, alias] && [c, alias] == [c] + [alias];
    KeyExpansion(a, [b, c, alias], map[]);
    KeyExpansion(b, [c, alias], map[]);
    KeyExpansion(c, [alias], bound);
    assert [alias][1..] == [];
    assert ExpandForest([alias], bound, false) == ([] + [], bound);
    assert Expand(b, map[], false).1 == bound;
    var es := ExpandForest([a, b, c, alias], map[], false).0;
    assert es == [Delivered(ScalarEvent(a), 1)]
                 + ([Delivered(ScalarEvent(b), 2)] + ([Delivered(ScalarEvent(c), 3)] + []));
  }
}
