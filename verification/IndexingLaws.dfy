/** What indexing, joining and the texts of JSON values amount to. */
module IndexingLaws {
  import opened Wrappers
  import opened JsonValues
  import opened Expressions
  import opened SourceSyntax

  // A field of an object, an element of an array, and its length; what is not there is null.
  lemma IndexingFinds(lib: Library, c: Cow, noErr: bool)
    ensures c.v.Object? ==> forall k ::
              IndexJson(lib, c, TextKey(k), noErr)
              == Ok(if k in c.v.fields then Cow(c.v.fields[k], c.owned) else Owned(Null))
    ensures c.v.Array? ==> forall n: nat ::
              IndexJson(lib, c, NumberKey(n), noErr)
              == Ok(if n < |c.v.items| then Cow(c.v.items[n], c.owned) else Owned(Null))
    ensures c.v.Array? ==> IndexJson(lib, c, TextKey("length"), noErr) == Ok(Owned(Number(Unsigned(|c.v.items|))))
    ensures c.v.Object? && !c.owned ==> forall n: nat ::
              IndexJson(lib, c, NumberKey(n), noErr) == IndexJson(lib, c, TextKey(lib.decimal(n)), noErr)
  {
  }

  // Exactly what cannot be indexed: a scalar, an array by a text other than `length`, and an object that was built
  // during evaluation by a number. It is an error, or null if the query recovers from errors.
  lemma IndexingFailsExactly(lib: Library, c: Cow, key: IndexKey, noErr: bool)
    ensures IndexJson(lib, c, key, noErr).Err? <==>
              !noErr && (|| IsScalar(c.v)
                         || (c.v.Array? && key.TextKey? && key.s != "length")
                         || (c.v.Object? && key.NumberKey? && c.owned))
    ensures IndexJson(lib, c, key, false).Err? ==> IndexJson(lib, c, key, true) == Ok(Owned(Null))
  {
  }

  // The pieces stand in order with the separator between any two of them.
  lemma {:induction false} JoinsInOrder(a: seq<string>, b: seq<string>, sep: string)
    requires a != [] && b != []
    ensures JoinStrings(a + b, sep) == JoinStrings(a, sep) + sep + JoinStrings(b, sep)
    ensures |a| == 1 ==> JoinStrings(a, sep) == a[0]
  {
    if |a| == 1 {
      assert (a + b)[1..] == b;
    } else {
      JoinsInOrder(a[1..], b, sep);
      assert (a + b)[1..] == a[1..] + b;
    }
  }

  // Joining an array joins its elements; an object, given a second separator, its entries; anything else is its text,
  // which for a text is itself.
  lemma JoinedValues(lib: Library, sep: string, sep2: Option<string>, j: Json)
    ensures j.Array? ==> exists texts: seq<string> ::
              && |texts| == |j.items| && JoinJson(lib, sep, sep2, j) == String(JoinStrings(texts, sep))
              && forall i :: 0 <= i < |texts| ==>
                   texts[i] == if j.items[i].String? then j.items[i].s else lib.show(j.items[i])
    ensures j.Object? && sep2.Some? ==> exists texts: seq<string> ::
              var entries := lib.entryOrder(j.fields);
              && |texts| == |entries| && JoinJson(lib, sep, sep2, j) == String(JoinStrings(texts, sep))
              && forall i :: 0 <= i < |texts| ==>
                   texts[i] == entries[i].0 + sep2.value
                               + (if entries[i].1.String? then entries[i].1.s else lib.show(entries[i].1))
    ensures j.String? ==> JoinJson(lib, sep, sep2, j) == j
    ensures IsScalar(j) && !j.String? ==> JoinJson(lib, sep, sep2, j) == String(lib.show(j))
  {
    if j.Array? {
      var texts := seq(|j.items|, i requires 0 <= i < |j.items| => JsonToString(lib, j.items[i]));
      assert JoinJson(lib, sep, sep2, j) == String(JoinStrings(texts, sep));
    } else if j.Object? && sep2.Some? {
      var entries := lib.entryOrder(j.fields);
      var texts := seq(|entries|, i requires 0 <= i < |entries| =>
                         entries[i].0 + sep2.value + JsonToString(lib, entries[i].1));
      assert JoinJson(lib, sep, sep2, j) == String(JoinStrings(texts, sep));
    }
  }

  // The whole tuple, and one of its elements, as a written path reaches them.
  lemma TupleIsReached(cfg: Config, n: nat, d: Json, t: seq<Cow>)
    requires "for_each" !in cfg.vars && n < |t|
    ensures PathMeaning(cfg, PathSource(Name("for_each"), [IndexSegment(n)]), Scope(d, Some(t))) == Ok(t[n])
    ensures exists j :: PathMeaning(cfg, PathSource(Name("for_each"), []), Scope(d, Some(t))) == Ok(Owned(Array(j)))
                        && |j| == |t| && forall i :: 0 <= i < |t| ==> j[i] == t[i].v
  {
    var rest := [IndexSegment(n)];
    assert rest[1..] == [];
    assert SegmentsMeaning(cfg, [], t[n], Some(t)) == Ok(t[n]);
    assert PathMeaning(cfg, PathSource(Name("for_each"), []), Scope(d, Some(t))) == Ok(Owned(Array(CowValues(t))));
  }

  // `if` is its second argument where the first is true and its third elsewhere; the other is not looked at.
  lemma IfChooses(cfg: Config, c: Source, a: Source, b: Source, sc: Scope)
    ensures var r := CallMeaning(cfg, IfName, [c, a, b], sc);
            match Meaning(cfg, c, sc)
            case Err(e) => r == Err(e)
            case Ok(v) => if BoolValue(v.v) then r == Meaning(cfg, a, sc) else r == Meaning(cfg, b, sc)
  {
  }
}
