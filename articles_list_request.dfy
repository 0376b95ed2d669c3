/** The article list request: before validation, the `external_ids` and
    `ids` query parameters are split at commas, empty pieces are dropped,
    and they replace the whole input. */
module ArticlesListRequest {
  import opened Wrappers
  import opened PhpValues

  /** array_filter over the pieces of explode(): the truthy pieces, each
      under its original position as key. */
  function FilterPieces(pieces: seq<string>): (r: seq<Entry>)
    ensures |r| <= |pieces|
  {
    if pieces == [] then []
    else
      var n := |pieces| - 1;
      FilterPieces(pieces[..n]) + (if Truthy(Str(pieces[n])) then [Entry(IntKey(n), Str(pieces[n]))] else [])
  }

  /** The kept entries are exactly the truthy pieces under their positions. */
  lemma {:induction false} FilterPiecesExactly(pieces: seq<string>)
    ensures forall e :: e in FilterPieces(pieces) <==>
              exists i :: 0 <= i < |pieces| && Truthy(Str(pieces[i])) && e == Entry(IntKey(i), Str(pieces[i]))
    ensures forall e :: e in FilterPieces(pieces) ==> e.key.IntKey? && 0 <= e.key.i < |pieces|
  {
    if pieces != [] {
      var n := |pieces| - 1;
      var init := pieces[..n];
      FilterPiecesExactly(init);
      var r := FilterPieces(pieces);
      forall e ensures e in r <==>
          exists i :: 0 <= i < |pieces| && Truthy(Str(pieces[i])) && e == Entry(IntKey(i), Str(pieces[i]))
      {
        if e in FilterPieces(init) {
          var i :| 0 <= i < |init| && Truthy(Str(init[i])) && e == Entry(IntKey(i), Str(init[i]));
          assert pieces[i] == init[i];
        }
        if exists i :: 0 <= i < |pieces| && Truthy(Str(pieces[i])) && e == Entry(IntKey(i), Str(pieces[i])) {
          var i :| 0 <= i < |pieces| && Truthy(Str(pieces[i])) && e == Entry(IntKey(i), Str(pieces[i]));
          if i < n {
            assert init[i] == pieces[i];
          }
        }
      }
    } else {
      assert FilterPieces(pieces) == [];
    }
  }

  /** array_filter keeps the relative order: the keys of the kept entries
      increase strictly. */
  lemma {:induction false} FilterPiecesOrdered(pieces: seq<string>)
    ensures forall j, k :: 0 <= j < k < |FilterPieces(pieces)| ==>
              FilterPieces(pieces)[j].key.IntKey? && FilterPieces(pieces)[k].key.IntKey?
              && FilterPieces(pieces)[j].key.i < FilterPieces(pieces)[k].key.i
  {
    if pieces != [] {
      var n := |pieces| - 1;
      var init := pieces[..n];
      FilterPiecesOrdered(init);
      FilterPiecesExactly(init);
      var r := FilterPieces(pieces);
      var kept := FilterPieces(init);
      assert r == kept + (if Truthy(Str(pieces[n])) then [Entry(IntKey(n), Str(pieces[n]))] else []);
      forall j, k | 0 <= j < k < |r|
        ensures r[j].key.IntKey? && r[k].key.IntKey? && r[j].key.i < r[k].key.i
      {
        if k >= |kept| {
          assert r[j] == kept[j] && r[j] in kept;
          assert r[k] == Entry(IntKey(n), Str(pieces[n]));
        } else {
          assert r[j] == kept[j] && r[k] == kept[k];
        }
      }
    } else {
      assert FilterPieces(pieces) == [];
    }
  }

  /** `$this->get(name)` split at commas and filtered. explode() requires a
      string: an array is a TypeError, null reads as "" and any other scalar
      is converted. */
  function SplitIds(v: Value): (r: Result<seq<Entry>, string>)
    ensures r.Failure? <==> v.Arr?
    ensures r.Success? ==> r.value == FilterPieces(Explode(',', ToPhpString(v).value))
  {
    match ToPhpString(v)
    case None => Failure("explode(): Argument #2 ($string) must be of type string, array given")
    case Some(s) => Success(FilterPieces(Explode(',', s)))
  }

  /** Every id kept from a comma-separated list is a non-empty, comma-free
      piece of it other than "0", keyed by its position among all the pieces. */
  lemma SplitIdsSound(s: string)
    ensures forall e :: e in SplitIds(Str(s)).value ==>
              && e.key.IntKey? && 0 <= e.key.i < |Explode(',', s)|
              && e.val == Str(Explode(',', s)[e.key.i]) && ',' !in Explode(',', s)[e.key.i]
              && Explode(',', s)[e.key.i] != "" && Explode(',', s)[e.key.i] != "0"
  {
    var pieces := Explode(',', s);
    assert ToPhpString(Str(s)) == Some(s);
    FilterPiecesExactly(pieces);
    ExplodeImplode(',', s);
    forall e | e in FilterPieces(pieces)
      ensures e.key.IntKey? && 0 <= e.key.i < |pieces| && e.val == Str(pieces[e.key.i])
              && ',' !in pieces[e.key.i] && pieces[e.key.i] != "" && pieces[e.key.i] != "0"
    {
      var i :| 0 <= i < |pieces| && Truthy(Str(pieces[i])) && e == Entry(IntKey(i), Str(pieces[i]));
    }
  }

  /** Every piece of a comma-separated list other than "" and "0" is kept,
      under its position; with the pieces joined again giving the list. */
  lemma SplitIdsComplete(s: string)
    ensures forall i :: 0 <= i < |Explode(',', s)| && Explode(',', s)[i] != "" && Explode(',', s)[i] != "0" ==>
              Entry(IntKey(i), Str(Explode(',', s)[i])) in SplitIds(Str(s)).value
    ensures Implode(',', Explode(',', s)) == s
  {
    var pieces := Explode(',', s);
    assert ToPhpString(Str(s)) == Some(s);
    FilterPiecesExactly(pieces);
    ExplodeImplode(',', s);
    forall i | 0 <= i < |pieces| && pieces[i] != "" && pieces[i] != "0"
      ensures Entry(IntKey(i), Str(pieces[i])) in FilterPieces(pieces)
    {
      assert Truthy(Str(pieces[i]));
    }
  }

  /** A missing or null parameter gives an empty list. */
  lemma SplitIdsOfNull()
    ensures SplitIds(Null) == Success([])
  {
    assert Explode(',', "") == [""];
  }

  /** prepareForValidation(): the input replaced by exactly the two split
      lists, `external_ids` first. */
  function PrepareForValidation(input: seq<Entry>): (r: Result<seq<Entry>, string>)
    ensures r.Failure? <==> Field(input, "external_ids").Arr? || Field(input, "ids").Arr?
    ensures r.Success? ==>
              && Field(r.value, "external_ids") == Arr(SplitIds(Field(input, "external_ids")).value)
              && Field(r.value, "ids") == Arr(SplitIds(Field(input, "ids")).value)
              && forall e :: e in r.value ==> e.key == StrKey("external_ids") || e.key == StrKey("ids")
  {
    match SplitIds(Field(input, "external_ids"))
    case Failure(e) => Failure(e)
    case Success(externalIds) =>
      match SplitIds(Field(input, "ids"))
      case Failure(e) => Failure(e)
      case Success(ids) =>
        var prepared := [Entry(StrKey("external_ids"), Arr(externalIds)), Entry(StrKey("ids"), Arr(ids))];
        assert Get(prepared, StrKey("ids")) == Get(prepared[1..], StrKey("ids"));
        Success(prepared)
  }

  /** rules(): both fields must be arrays. */
  predicate PassesRules(data: seq<Entry>)
  {
    Field(data, "external_ids").Arr? && Field(data, "ids").Arr?
  }

  /** Whatever the request held, a prepared input passes the rules. */
  lemma PreparedPassesRules(input: seq<Entry>)
    requires PrepareForValidation(input).Success?
    ensures PassesRules(PrepareForValidation(input).value)
  {
  }
}
