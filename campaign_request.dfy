/** The campaign form request: `all()` normalises the submitted fields and
    fills in defaults before validation, and `rules()` constrains the
    variants of the campaign's A/B test. */
module CampaignRequest {
  import opened Wrappers
  import opened PhpValues

  /** The integer fields of `pageview_rules` that default to 2. */
  const IntegerRules: seq<string> := ["display_banner_every", "display_n_times", "after_closed_hours", "after_clicked_hours"]

  /** array_filter without a callback: the entries with truthy values, keys kept. */
  function FilterTruthy(entries: seq<Entry>): (r: seq<Entry>)
    ensures |r| <= |entries|
  {
    if entries == [] then []
    else (if Truthy(entries[0].val) then [entries[0]] else []) + FilterTruthy(entries[1..])
  }

  /** array_values: the same values, keyed 0, 1, 2, ... */
  function Reindex(entries: seq<Entry>): (r: seq<Entry>)
    ensures |r| == |entries|
    ensures forall i :: 0 <= i < |r| ==> r[i] == Entry(IntKey(i), entries[i].val)
  {
    if entries == [] then []
    else
      var n := |entries| - 1;
      Reindex(entries[..n]) + [Entry(IntKey(n), entries[n].val)]
  }

  /** array_values(array_filter($patterns)): the truthy patterns, in their
      order, and nothing else. */
  lemma {:induction false} FilterTruthyExactly(entries: seq<Entry>)
    ensures forall e :: e in FilterTruthy(entries) <==> e in entries && Truthy(e.val)
    ensures forall i :: 0 <= i < |FilterTruthy(entries)| ==> Truthy(FilterTruthy(entries)[i].val)
    ensures (forall e :: e in entries ==> Truthy(e.val)) ==> FilterTruthy(entries) == entries
  {
    if entries != [] {
      FilterTruthyExactly(entries[1..]);
      assert entries == [entries[0]] + entries[1..];
    }
  }

  /** `x` sits at an earlier position of the list than `y`. */
  ghost predicate ComesBefore(entries: seq<Entry>, x: Entry, y: Entry)
  {
    exists a, b :: 0 <= a < b < |entries| && entries[a] == x && entries[b] == y
  }

  /** array_filter keeps the relative order: two kept entries come from
      positions of the list in the same order. */
  lemma {:induction false} FilterTruthyInOrder(entries: seq<Entry>)
    ensures forall i, j :: 0 <= i < j < |FilterTruthy(entries)| ==>
              ComesBefore(entries, FilterTruthy(entries)[i], FilterTruthy(entries)[j])
  {
    if entries == [] {
      assert FilterTruthy(entries) == [];
    } else {
      var rest := entries[1..];
      var kept := FilterTruthy(entries);
      var keptRest := FilterTruthy(rest);
      FilterTruthyInOrder(rest);
      var k := if Truthy(entries[0].val) then 1 else 0;
      assert kept == (if Truthy(entries[0].val) then [entries[0]] else []) + keptRest;
      forall i, j | 0 <= i < j < |kept|
        ensures ComesBefore(entries, kept[i], kept[j])
      {
        if i < k {
          assert kept[j] == keptRest[j - k];
          var b := IndexIn(rest, keptRest, j - k);
          assert entries[0] == kept[i] && entries[b + 1] == kept[j];
        } else {
          assert kept[i] == keptRest[i - k] && kept[j] == keptRest[j - k];
          assert ComesBefore(rest, keptRest[i - k], keptRest[j - k]);
          var a, b :| 0 <= a < b < |rest| && rest[a] == kept[i] && rest[b] == kept[j];
          assert entries[a + 1] == kept[i] && entries[b + 1] == kept[j];
        }
      }
    }
  }

  /** The position in the list of a kept entry. */
  lemma IndexIn(entries: seq<Entry>, kept: seq<Entry>, n: nat) returns (b: nat)
    requires kept == FilterTruthy(entries) && n < |kept|
    ensures b < |entries| && entries[b] == kept[n]
  {
    FilterTruthyExactly(entries);
    assert kept[n] in kept;
    b :| 0 <= b < |entries| && entries[b] == kept[n];
  }

  /** The cleaned list of URL or referer patterns. */
  function CleanPatterns(entries: seq<Entry>): seq<Entry>
  {
    Reindex(FilterTruthy(entries))
  }

  /** The cleaned patterns are keyed 0, 1, 2, ... and hold only truthy
      values taken from the list. */
  lemma CleanPatternsSound(entries: seq<Entry>)
    ensures forall i :: 0 <= i < |CleanPatterns(entries)| ==>
              && CleanPatterns(entries)[i].key == IntKey(i) && Truthy(CleanPatterns(entries)[i].val)
              && exists e :: e in entries && e.val == CleanPatterns(entries)[i].val
  {
    FilterTruthyExactly(entries);
    var kept := FilterTruthy(entries);
    var r := CleanPatterns(entries);
    forall i | 0 <= i < |r|
      ensures r[i].key == IntKey(i) && Truthy(r[i].val) && exists e :: e in entries && e.val == r[i].val
    {
      assert r[i].val == kept[i].val && kept[i] in kept;
    }
  }

  /** Every truthy value of the list survives the cleaning. */
  lemma CleanPatternsComplete(entries: seq<Entry>)
    ensures forall e :: e in entries && Truthy(e.val) ==>
              exists i :: 0 <= i < |CleanPatterns(entries)| && CleanPatterns(entries)[i].val == e.val
  {
    FilterTruthyExactly(entries);
    var kept := FilterTruthy(entries);
    var r := CleanPatterns(entries);
    forall e | e in entries && Truthy(e.val)
      ensures exists i :: 0 <= i < |r| && r[i].val == e.val
    {
      var i :| 0 <= i < |kept| && kept[i] == e;
      assert r[i].val == e.val;
    }
  }

  /** A list with no falsy entry keeps all its values, in order. */
  lemma CleanPatternsOfTruthy(entries: seq<Entry>)
    requires forall e :: e in entries ==> Truthy(e.val)
    ensures |CleanPatterns(entries)| == |entries|
    ensures forall i :: 0 <= i < |entries| ==> CleanPatterns(entries)[i] == Entry(IntKey(i), entries[i].val)
  {
    FilterTruthyExactly(entries);
  }

  /** `$data['pageview_rules']` as an array that can be written into: a
      missing, null or false value becomes an empty array; any other scalar
      cannot be indexed and the write throws. */
  function WritableArray(v: Value): Option<seq<Entry>>
  {
    match v
    case Arr(es) => Some(es)
    case Null => Some([])
    case Bool(b) => if b then None else Some([])
    case _ => None
  }

  /** The normalised value of one integer pageview rule. */
  function IntegerRule(rules: seq<Entry>, name: string): Value
  {
    FilterInt(Field(rules, name), 2)
  }

  /** The keys of `pageview_rules` that all() rewrites. */
  const RuleKeys: set<Key> := {
    StrKey("display_times"), StrKey("display_banner_every"), StrKey("display_n_times"),
    StrKey("after_closed_hours"), StrKey("after_clicked_hours")
  }

  /** `$data[name] = v`, with what it changes and what it keeps. */
  function SetField(data: seq<Entry>, name: string, v: Value): (r: seq<Entry>)
    ensures Get(r, StrKey(name)) == Some(v)
    ensures forall k :: k != StrKey(name) ==> Get(r, k) == Get(data, k)
  {
    GetSetAll(data, StrKey(name), v);
    Set(data, StrKey(name), v)
  }

  /** What all() promises about `pageview_rules`: display_times filtered to
      a boolean, the four integer rules filtered to integers (2 where a
      scalar is not a valid integer, false for an array), every other rule
      kept. */
  ghost predicate NormalisedRules(rules: seq<Entry>, rules': seq<Entry>)
  {
    && Field(rules', "display_times") == Bool(FilterBool(Field(rules, "display_times")))
    && (forall name :: name in IntegerRules ==> Field(rules', name) == IntegerRule(rules, name))
    && (forall k :: k !in RuleKeys ==> Get(rules', k) == Get(rules, k))
  }

  /** The default all() applies first: `display_times` set to false when it
      is not set. */
  function DefaultDisplayTimes(rules: seq<Entry>): (r: seq<Entry>)
    ensures FilterBool(Field(r, "display_times")) == FilterBool(Field(rules, "display_times"))
    ensures forall k :: k != StrKey("display_times") ==> Get(r, k) == Get(rules, k)
  {
    GetSetAll(rules, StrKey("display_times"), Bool(false));
    if IsSet(rules, "display_times") then rules else Set(rules, StrKey("display_times"), Bool(false))
  }

  /** The filters all() applies next: display_times through the boolean
      filter, then the four integer rules through the integer filter, one
      after another. */
  function NormaliseRules(rules: seq<Entry>): seq<Entry>
  {
    var r := SetField(rules, "display_times", Bool(FilterBool(Field(rules, "display_times"))));
    var r := SetField(r, "display_banner_every", IntegerRule(r, "display_banner_every"));
    var r := SetField(r, "display_n_times", IntegerRule(r, "display_n_times"));
    var r := SetField(r, "after_closed_hours", IntegerRule(r, "after_closed_hours"));
    SetField(r, "after_clicked_hours", IntegerRule(r, "after_clicked_hours"))
  }

  /** After the default and the filters the rules are normalised with
      respect to the submitted ones: the default changes nothing the filters
      can see. */
  lemma NormaliseDefaultedRules(rules: seq<Entry>)
    ensures NormalisedRules(rules, NormaliseRules(DefaultDisplayTimes(rules)))
  {
    var d := DefaultDisplayTimes(rules);
    var r1 := SetField(d, "display_times", Bool(FilterBool(Field(d, "display_times"))));
    var r2 := SetField(r1, "display_banner_every", IntegerRule(r1, "display_banner_every"));
    var r3 := SetField(r2, "display_n_times", IntegerRule(r2, "display_n_times"));
    var r4 := SetField(r3, "after_closed_hours", IntegerRule(r3, "after_closed_hours"));
    var r5 := SetField(r4, "after_clicked_hours", IntegerRule(r4, "after_clicked_hours"));
    assert r5 == NormaliseRules(d);
    forall name | name in IntegerRules
      ensures Field(r5, name) == IntegerRule(rules, name)
    {
    }
  }

  /** A valid 64-bit integer rule keeps its value and a missing or null rule
      becomes 2; an array rule becomes false, which then fails the `integer`
      rule. A missing display_times filters to false. */
  lemma RuleDefaults(rules: seq<Entry>, name: string, i: int)
    ensures Field(rules, name) == Int(i) && MinInt <= i <= MaxInt ==> IntegerRule(rules, name) == Int(i)
    ensures Field(rules, name) == Null ==> IntegerRule(rules, name) == Int(2)
    ensures Field(rules, name).Arr? ==> IntegerRule(rules, name) == Bool(false)
                                        && AsInteger(IntegerRule(rules, name)).None?
    ensures Field(rules, "display_times") == Null ==> FilterBool(Field(rules, "display_times")) == false
  {
    if Field(rules, name) == Int(i) && MinInt <= i <= MaxInt {
      FilterIntOfInt(i, 2);
    }
  }

  /** A form sends the rules as strings: a 64-bit integer's decimal string
      becomes that integer, and any other scalar that is not an integer
      becomes 2, so every scalar rule then passes the `integer` rule. */
  lemma RuleDefaultsOfScalars(rules: seq<Entry>, name: string, i: int)
    ensures Field(rules, name) == Str(IntToDecimal(i)) && MinInt <= i <= MaxInt
            ==> IntegerRule(rules, name) == Int(i)
    ensures !Field(rules, name).Arr? && AsInteger(Field(rules, name)).None?
            ==> IntegerRule(rules, name) == Int(2)
    ensures !Field(rules, name).Arr? ==> AsInteger(IntegerRule(rules, name)).Some?
  {
    var v := Field(rules, name);
    if v == Str(IntToDecimal(i)) && MinInt <= i <= MaxInt {
      FilterIntDecimal(i);
    }
    if !v.Arr? {
      var r := IntegerRule(rules, name);
      FilterIntDecimal(r.i);
      assert AsInteger(r) == FilterIntString(IntToDecimal(r.i));
    }
  }

  /** The submitted form data: the fields all() handles by name, None when
      the key is absent, and every other field under its own name.
      Validation reads the data by key only, so key order is not kept. */
  datatype RequestData = RequestData(
    signedIn: Option<Value>, usingAdblock: Option<Value>, pageviewRules: Option<Value>,
    urlPatterns: Option<Value>, refererPatterns: Option<Value>,
    active: Option<Value>, oncePerSession: Option<Value>,
    others: map<string, Value>)

  /** `$data[name]` for a field handled by name: null when it is missing. */
  function Read(field: Option<Value>): Value
  {
    field.GetOr(Null)
  }

  /** A pattern list after all() has cleaned it: an array is reduced to its truthy
      patterns, re-keyed 0, 1, 2, ...; any other value is left as it is. */
  function Cleaned(v: Value): (r: Value)
    ensures r.Arr? <==> v.Arr?
    ensures !v.Arr? ==> r == v
  {
    if v.Arr? then Arr(CleanPatterns(v.entries)) else v
  }

  /** all(): the request data with the campaign fields overwritten one
      after another. Fails (PHP throws) when `pageview_rules` is a scalar
      that cannot be indexed. */
  method All(input: RequestData) returns (r: Result<RequestData, string>)
    ensures r.Failure? <==> WritableArray(Read(input.pageviewRules)).None?
    ensures r.Success? ==>
      var data := r.value;
      && data.signedIn == Some(Read(input.signedIn))
      && data.usingAdblock == Some(Read(input.usingAdblock))
      && (input.urlPatterns.None? ==> data.urlPatterns.None?)
      && (input.urlPatterns.Some? ==> data.urlPatterns == Some(Cleaned(input.urlPatterns.value)))
      && (input.refererPatterns.None? ==> data.refererPatterns.None?)
      && (input.refererPatterns.Some? ==> data.refererPatterns == Some(Cleaned(input.refererPatterns.value)))
      && data.active == Some(GetBoolean(Read(input.active)))
      && data.oncePerSession == Some(GetBoolean(Read(input.oncePerSession)))
      && data.others == input.others
      && data.pageviewRules.Some? && data.pageviewRules.value.Arr?
      && NormalisedRules(WritableArray(Read(input.pageviewRules)).value, data.pageviewRules.value.entries)
  {
    var data := input;
    if Read(data.signedIn) == Null {
      data := data.(signedIn := Some(Null));
    }
    if Read(data.usingAdblock) == Null {
      data := data.(usingAdblock := Some(Null));
    }
    var writable := WritableArray(Read(data.pageviewRules));
    if writable.None? {
      return Failure("Cannot use a scalar value as an array");
    }
    var rules := DefaultDisplayTimes(writable.value);
    data := data.(pageviewRules := Some(Arr(rules)));
    if Read(data.urlPatterns).Arr? {
      data := data.(urlPatterns := Some(Arr(CleanPatterns(data.urlPatterns.value.entries))));
    }
    if Read(data.refererPatterns).Arr? {
      data := data.(refererPatterns := Some(Arr(CleanPatterns(data.refererPatterns.value.entries))));
    }
    NormaliseDefaultedRules(writable.value);
    rules := NormaliseRules(rules);
    data := data.(pageviewRules := Some(Arr(rules)));
    data := data.(active := Some(GetBoolean(Read(data.active))));
    data := data.(oncePerSession := Some(GetBoolean(Read(data.oncePerSession))));
    return Success(data);
  }

  // -----------------------------------------------------------------------
  // The variant rules of rules()

  /** The characters PHP's trim() strips. */
  predicate IsTrimSpace(c: char) { c == ' ' || c == '\t' || c == '\n' || c == '\r' || c == '\0' || c == '\U{000B}' }

  /** Laravel's `required`: not null, not a string trim() empties, not an
      empty array. */
  predicate Required(v: Value)
  {
    match v
    case Null => false
    case Str(s) => exists i :: 0 <= i < |s| && !IsTrimSpace(s[i])
    case Arr(es) => es != []
    case _ => true
  }

  /** Laravel's `boolean` rule: true, false, 0, 1, "0" or "1", compared
      strictly. */
  predicate PassesBoolean(v: Value)
  {
    v.Bool? || v == Int(0) || v == Int(1) || v == Str("0") || v == Str("1")
  }

  /** `active` and `once_per_session` after all() pass the `boolean` rule
      exactly when the submitted value was not an array: a scalar becomes a
      boolean, an array becomes an array of booleans. */
  lemma NormalisedFlagPassesBoolean(v: Value)
    ensures PassesBoolean(GetBoolean(v)) <==> !v.Arr?
  {
  }

  /** The integer a value passes Laravel's `integer` rule as, if it does
      (the rule is filter_var with FILTER_VALIDATE_INT). */
  function AsInteger(v: Value): Option<int>
  {
    match ToPhpString(v)
    case Some(s) => FilterIntString(s)
    case None => None
  }

  /** `variants.*.proportion`, `.control_group`, `.weight` and `.banner_id`:
      the proportion an integer from 0 to 100, the control-group flag and the
      weight integers, and a banner unless the variant is the control group. */
  predicate VariantPasses(variant: seq<Entry>)
  {
    var proportion := AsInteger(Field(variant, "proportion"));
    var controlGroup := AsInteger(Field(variant, "control_group"));
    && proportion.Some? && 0 <= proportion.value <= 100
    && controlGroup.Some?
    && AsInteger(Field(variant, "weight")).Some?
    && (controlGroup != Some(1) ==> Required(Field(variant, "banner_id")))
  }

  /** A variant that passes has a proportion from 0 to 100; a passing variant
      outside the control group names a banner. */
  lemma VariantPassesMeans(variant: seq<Entry>)
    requires VariantPasses(variant)
    ensures exists p :: AsInteger(Field(variant, "proportion")) == Some(p) && 0 <= p <= 100
    ensures AsInteger(Field(variant, "control_group")) != Some(1) ==> Field(variant, "banner_id") != Null
  {
  }

  /** A variant form with the three integer fields and no banner. */
  function VariantWithoutBanner(proportion: int, controlGroup: int, weight: int): (v: seq<Entry>)
    ensures Field(v, "proportion") == Int(proportion)
    ensures Field(v, "control_group") == Int(controlGroup)
    ensures Field(v, "weight") == Int(weight)
    ensures Field(v, "banner_id") == Null
  {
    var v := [Entry(StrKey("proportion"), Int(proportion)), Entry(StrKey("control_group"), Int(controlGroup)),
              Entry(StrKey("weight"), Int(weight))];
    assert Get(v, StrKey("control_group")) == Get(v[1..], StrKey("control_group"));
    assert Get(v, StrKey("weight")) == Get(v[1..], StrKey("weight")) == Get(v[2..], StrKey("weight"));
    assert Get(v, StrKey("banner_id")) == Get(v[1..], StrKey("banner_id")) == Get(v[2..], StrKey("banner_id"))
        == Get(v[3..], StrKey("banner_id")) == None;
    v
  }

  /** A control-group variant passes without a banner, and a variant outside
      the control group without one fails, whatever its proportion. */
  lemma ControlGroupNeedsNoBanner(proportion: int, weight: int)
    requires 0 <= proportion <= 100 && MinInt <= weight <= MaxInt
    ensures VariantPasses(VariantWithoutBanner(proportion, 1, weight))
    ensures !VariantPasses(VariantWithoutBanner(proportion, 0, weight))
  {
    FilterIntDecimal(proportion);
    FilterIntDecimal(weight);
    FilterIntDecimal(1);
    FilterIntDecimal(0);
  }

  /** A proportion above 100 or below 0 fails the rule. */
  lemma ProportionOutOfRangeFails(variant: seq<Entry>, p: int)
    requires MinInt <= p <= MaxInt && (p < 0 || p > 100)
    requires Field(variant, "proportion") == Int(p)
    ensures !VariantPasses(variant)
  {
    FilterIntDecimal(p);
  }
}
