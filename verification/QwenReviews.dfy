/** Validation of a model's review list (radar_v08/qwen.py, `_validate_reviews`). */
module QwenReviews {
  import opened Options

  datatype Json = Null | Bool(b: bool) | Number(n: real) | Str(s: string) | List(items: seq<Json>) | Object(fields: map<string, Json>)

  const SETUP_TYPES := ["BREAKOUT", "CONTINUATION", "REVERSAL", "SQUEEZE_RELEASE", "EXHAUSTION", "NONE"]
  const DIRECTIONS := ["LONG", "SHORT", "NONE"]
  const MARKETS := ["SPOT", "FUTURES", "BOTH", "NONE"]
  const CONFIDENCES := ["LOW", "MEDIUM", "HIGH"]

  datatype Review = Review(
    asset: string, setupType: string, direction: string, market: string, confidence: string,
    veto: bool, callSonnet: bool, callFable: bool, reason: string, notes: seq<string>)

  // dict.get: a missing key reads as null.
  function Get(j: Json, key: string): Json {
    if j.Object? && key in j.fields then j.fields[key] else Null
  }

  function AssetOf(j: Json): string { if Get(j, "asset").Str? then Get(j, "asset").s else "" }

  predicate OneOf(j: Json, allowed: seq<string>) { j.Str? && j.s in allowed }

  predicate AllStrings(items: seq<Json>) { forall x <- items :: x.Str? }

  // Everything an item must satisfy on its own, whatever the other items say.
  predicate ItemOk(j: Json) {
    && j.Object?
    && Get(j, "asset").Str?
    && OneOf(Get(j, "setup_type"), SETUP_TYPES)
    && OneOf(Get(j, "direction"), DIRECTIONS)
    && OneOf(Get(j, "market"), MARKETS)
    && OneOf(Get(j, "confidence"), CONFIDENCES)
    && Get(j, "veto").Bool? && Get(j, "call_sonnet").Bool? && Get(j, "call_fable").Bool?
    && Get(j, "reason").Str?
    && Get(j, "data_quality_notes").List? && AllStrings(Get(j, "data_quality_notes").items)
  }

  function Prefix(s: string, n: nat): string { if |s| <= n then s else s[..n] }

  function ReviewOf(j: Json): Review
    requires ItemOk(j)
  {
    var notes := Get(j, "data_quality_notes").items;
    Review(Get(j, "asset").s, Get(j, "setup_type").s, Get(j, "direction").s, Get(j, "market").s,
           Get(j, "confidence").s, Get(j, "veto").b, Get(j, "call_sonnet").b, Get(j, "call_fable").b,
           Prefix(Get(j, "reason").s, 200),
           seq(|notes|, i requires 0 <= i < |notes| => if notes[i].Str? then notes[i].s else ""))
  }

  // The item's text under this key.
  predicate Texts(item: Json, key: string, text: string) {
    item.Object? && key in item.fields && item.fields[key] == Str(text)
  }

  predicate Flags(item: Json, key: string, flag: bool) {
    item.Object? && key in item.fields && item.fields[key] == Bool(flag)
  }

  // The first 200 characters of the item's reason.
  ghost predicate Reasons(item: Json, reason: string) {
    exists rest: string :: Texts(item, "reason", reason + rest) && (if rest == "" then |reason| <= 200 else |reason| == 200)
  }

  // The item's notes, in order.
  predicate Notes(item: Json, notes: seq<string>) {
    && item.Object? && "data_quality_notes" in item.fields && item.fields["data_quality_notes"].List?
    && var items := item.fields["data_quality_notes"].items;
       |items| == |notes| && forall i :: 0 <= i < |notes| ==> items[i] == Str(notes[i])
  }

  // The review says what the item says, field by field.
  ghost predicate Says(review: Review, item: Json) {
    && Texts(item, "asset", review.asset) && Texts(item, "setup_type", review.setupType)
    && Texts(item, "direction", review.direction) && Texts(item, "market", review.market)
    && Texts(item, "confidence", review.confidence)
    && Flags(item, "veto", review.veto) && Flags(item, "call_sonnet", review.callSonnet) && Flags(item, "call_fable", review.callFable)
    && Reasons(item, review.reason) && Notes(item, review.notes)
  }

  lemma ReviewSays(item: Json)
    requires ItemOk(item)
    ensures Says(ReviewOf(item), item)
  {
    var reason := Get(item, "reason").s;
    var kept := Prefix(reason, 200);
    assert kept + reason[|kept|..] == reason;
    var notes := Get(item, "data_quality_notes").items;
    assert forall i :: 0 <= i < |notes| ==> notes[i] in notes;
  }

  ghost function Names(items: seq<Json>): seq<string> {
    seq(|items|, i requires 0 <= i < |items| => AssetOf(items[i]))
  }

  ghost predicate NoRepeats(names: seq<string>) {
    forall i, k :: 0 <= i < k < |names| ==> names[i] != names[k]
  }

  ghost function Elements(names: seq<string>): set<string> { set a | a in names }

  ghost predicate AllOk(items: seq<Json>) { forall i :: 0 <= i < |items| ==> ItemOk(items[i]) }

  // A well-formed list that reviews every finalist exactly once and nothing else.
  ghost predicate ReviewsAll(parsed: Json, assets: set<string>) {
    && parsed.Object? && Get(parsed, "reviews").List?
    && var items := Get(parsed, "reviews").items;
    AllOk(items) && NoRepeats(Names(items)) && Elements(Names(items)) == assets
  }

  // What the loop knows after k items; `names` are the items' assets.
  ghost predicate Scanned(names: seq<string>, k: nat, seen: set<string>)
    requires k <= |names|
  {
    NoRepeats(names[..k]) && seen == Elements(names[..k])
  }

  lemma ScanStarts(names: seq<string>)
    ensures Scanned(names, 0, {})
  {
  }

  lemma ScanEnds(names: seq<string>, seen: set<string>)
    requires Scanned(names, |names|, seen)
    ensures NoRepeats(names) && seen == Elements(names)
  {
    assert names[..|names|] == names;
  }

  lemma ElementsHas(names: seq<string>, k: nat)
    requires k < |names|
    ensures names[k] in Elements(names)
  {
  }

  lemma ScanExtends(names: seq<string>, k: nat, seen: set<string>)
    requires k < |names| && Scanned(names, k, seen) && names[k] !in seen
    ensures Scanned(names, k + 1, seen + {names[k]})
  {
    assert names[..k + 1] == names[..k] + [names[k]];
    forall i | 0 <= i < k ensures names[i] != names[k] {
      assert names[..k][i] == names[i];
    }
  }

  lemma RepeatSpoils(names: seq<string>, k: nat, seen: set<string>)
    requires k < |names| && Scanned(names, k, seen) && names[k] in seen
    ensures !NoRepeats(names)
  {
    var i :| 0 <= i < k && names[..k][i] == names[k];
  }

  /**
   The batch is accepted exactly when it reviews every finalist once and nothing
   else, every item being well formed; the accepted map then holds each item's
   review under its asset.
   */
  method ValidateReviews(parsed: Json, assets: set<string>) returns (r: Option<map<string, Review>>)
    ensures r.Some? <==> ReviewsAll(parsed, assets)
    ensures r.Some? ==> r.value.Keys == assets
    ensures r.Some? ==>
              var items := Get(parsed, "reviews").items;
              forall i :: 0 <= i < |items| ==>
                            ItemOk(items[i]) && AssetOf(items[i]) in assets && r.value[AssetOf(items[i])] == ReviewOf(items[i])
    ensures r.Some? ==>
              var items := Get(parsed, "reviews").items;
              forall i :: 0 <= i < |items| ==> AssetOf(items[i]) in assets && Says(r.value[AssetOf(items[i])], items[i])
  {
    hide ReviewOf, NoRepeats, Elements, Scanned, Says;
    if !parsed.Object? || !Get(parsed, "reviews").List? {
      return None;
    }
    var items := Get(parsed, "reviews").items;
    ghost var names := Names(items);
    ScanStarts(names);
    var seen: set<string> := {};
    var out: map<string, Review> := map[];
    for k := 0 to |items|
      invariant Scanned(names, k, seen) && seen <= assets && out.Keys == seen
      invariant forall i :: 0 <= i < k ==> ItemOk(items[i]) && names[i] in out && out[names[i]] == ReviewOf(items[i])
    {
      var item := items[k];
      if !Get(item, "asset").Str? {
        return None;
      }
      var asset := AssetOf(item);
      assert asset == names[k];
      if asset !in assets {
        ElementsHas(names, k);
        return None;
      }
      if asset in seen {
        RepeatSpoils(names, k, seen);
        return None;
      }
      if !ItemOk(item) {
        return None;
      }
      ScanExtends(names, k, seen);
      seen := seen + {asset};
      out := out[asset := ReviewOf(item)];
    }
    ScanEnds(names, seen);
    if assets - seen != {} {
      var a :| a in assets - seen;
      return None;
    }
    assert forall a <- assets :: a in seen || a in assets - seen;
    assert seen == assets;
    forall i | 0 <= i < |items| {
      ReviewSays(items[i]);
    }
    return Some(out);
  }
}
