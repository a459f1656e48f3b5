/** The webhook store of the Webhook Runner script
    (script.webhook.runner/resources/lib/default.py): webhooks kept under
    string ids, the id given to a new webhook, listing order, the checks
    made before a webhook is sent, and the argument the script is started
    with. The JSON file is the map the store holds. */
module WebhookStore {
  import opened Wrappers
  import opened Strings
  import opened WebhookKeymap

  /** A stored webhook. A field the record does not have is `None`; the
      button may also be stored as JSON null, `Some(None)`. */
  datatype Webhook = Webhook(
    name: Option<string>,
    url: Option<string>,
    enabled: Option<bool>,
    button: Option<Option<string>>,
    buttonType: Option<string>)

  /** The record a new webhook gets. */
  function NewWebhook(name: string, url: string): (r: Webhook)
    ensures ButtonOf(r).None? && ButtonTypeOf(r) == "remote"
    ensures r.name == Some(name) && r.url == Some(url) && r.enabled == Some(true)
  {
    Webhook(Some(name), Some(url), Some(true), Some(None), Some("remote"))
  }

  /** `webhook.get('button')`: a missing button and a null one are both
      no button. */
  function ButtonOf(w: Webhook): Option<string>
  {
    if w.button.Some? then w.button.value else None
  }

  /** `webhook.get('button_type', 'remote')`. */
  function ButtonTypeOf(w: Webhook): string
  {
    if w.buttonType.Some? then w.buttonType.value else "remote"
  }

  // ---------------------------------------------------------------- new ids

  /** `n` is what `get_next_id` answers for a store with these ids: one
      more than the largest id that `int()` accepts, counting from 0, so
      ids that are not numbers are ignored and an empty store gives 1. */
  ghost predicate IsNextValue(keys: set<string>, n: nat)
  {
    n >= 1 &&
    (forall k :: k in keys && ParseInt(k).Some? ==> ParseInt(k).value < n) &&
    (n == 1 || exists k :: k in keys && ParseInt(k) == Some(n - 1))
  }

  ghost predicate IsNextId(keys: set<string>, id: string)
  {
    exists n: nat :: id == NatToStr(n) && IsNextValue(keys, n)
  }

  /** At most one number answers for a given store. */
  lemma NextValueUnique(keys: set<string>, a: nat, b: nat)
    requires IsNextValue(keys, a) && IsNextValue(keys, b)
    ensures a == b
  {
  }

  /** A new id is never one the store already holds, and an empty store
      starts at "1". */
  lemma NextIdFresh(keys: set<string>, id: string)
    requires IsNextId(keys, id)
    ensures id !in keys
    ensures keys == {} ==> id == "1"
  {
    var n: nat :| id == NatToStr(n) && IsNextValue(keys, n);
    ParseIntOfNatToStr(n);
    if keys == {} {
      assert n == 1;
      assert NatToStr(1) == "1";
    }
  }

  // ---------------------------------------------------------------- updates

  /** The keyword arguments of `update_webhook`: each given field is
      overwritten. */
  datatype Changes = Changes(
    name: Option<string>,
    url: Option<string>,
    enabled: Option<bool>,
    button: Option<Option<string>>,
    buttonType: Option<string>)

  function Apply(w: Webhook, c: Changes): (r: Webhook)
    ensures c.name.Some? ==> r.name == c.name
    ensures c.url.Some? ==> r.url == c.url
    ensures c.enabled.Some? ==> r.enabled == c.enabled
    ensures c.button.Some? ==> r.button == c.button
    ensures c.buttonType.Some? ==> r.buttonType == c.buttonType
    ensures r == w <==> (c.name.None? || c.name == w.name) && (c.url.None? || c.url == w.url) &&
                        (c.enabled.None? || c.enabled == w.enabled) && (c.button.None? || c.button == w.button) &&
                        (c.buttonType.None? || c.buttonType == w.buttonType)
  {
    Webhook(
      if c.name.Some? then c.name else w.name,
      if c.url.Some? then c.url else w.url,
      if c.enabled.Some? then c.enabled else w.enabled,
      if c.button.Some? then c.button else w.button,
      if c.buttonType.Some? then c.buttonType else w.buttonType)
  }

  /** Applying the same changes twice is applying them once, and changing
      nothing changes nothing. */
  lemma ApplyIdempotent(w: Webhook, c: Changes)
    ensures Apply(Apply(w, c), c) == Apply(w, c)
    ensures Apply(w, Changes(None, None, None, None, None)) == w
  {
  }

  class Store {
    var hooks: map<string, Webhook>

    constructor ()
      ensures hooks == map[]
    {
      hooks := map[];
    }

    /** `get_next_id`: scans the ids for the largest one `int()` accepts. */
    method NextId() returns (id: string)
      ensures IsNextId(hooks.Keys, id)
    {
      if hooks == map[] {
        assert IsNextValue(hooks.Keys, 1);
        assert NatToStr(1) == "1";
        return "1";
      }
      var maxId: nat := 0;
      var rest := hooks.Keys;
      while rest != {}
        invariant rest <= hooks.Keys
        invariant forall k :: k in hooks.Keys - rest && ParseInt(k).Some? ==> ParseInt(k).value <= maxId
        invariant maxId == 0 || exists k :: k in hooks.Keys - rest && ParseInt(k) == Some(maxId)
        decreases |rest|
      {
        var k :| k in rest;
        var v := ParseInt(k);
        if v.Some? && v.value > maxId {
          maxId := v.value;
        }
        rest := rest - {k};
      }
      id := NatToStr(maxId + 1);
      assert IsNextValue(hooks.Keys, maxId + 1);
    }

    /** `add_webhook`: stores a new enabled webhook without a button under
        a fresh id. */
    method AddWebhook(name: string, url: string) returns (id: string)
      modifies this
      ensures IsNextId(old(hooks).Keys, id) && id !in old(hooks)
      ensures hooks == old(hooks)[id := NewWebhook(name, url)]
    {
      id := NextId();
      NextIdFresh(hooks.Keys, id);
      hooks := hooks[id := NewWebhook(name, url)];
    }

    /** `update_webhook`: an unknown id is refused; otherwise only the
        given fields of that webhook change. */
    method UpdateWebhook(id: string, c: Changes) returns (ok: bool)
      modifies this
      ensures ok <==> id in old(hooks)
      ensures ok ==> hooks == old(hooks)[id := Apply(old(hooks)[id], c)]
      ensures !ok ==> hooks == old(hooks)
    {
      if id !in hooks {
        return false;
      }
      hooks := hooks[id := Apply(hooks[id], c)];
      ok := true;
    }

    /** `delete_webhook`: removes exactly that webhook and unmaps its
        button, if it had one. */
    method DeleteWebhook(id: string, keymap: Keymap) returns (ok: bool)
      requires keymap.Valid()
      modifies this, keymap
      ensures keymap.Valid()
      ensures ok <==> id in old(hooks)
      ensures hooks == old(hooks) - {id}
      ensures keymap.present == old(keymap.present)
      ensures ok && ButtonOf(old(hooks)[id]).Some? && ButtonOf(old(hooks)[id]).value != [] && old(keymap.present) ==>
                keymap.root == RemoveMappingAsWritten(old(keymap.root), ButtonOf(old(hooks)[id]).value, ButtonTypeOf(old(hooks)[id]))
      ensures !(ok && ButtonOf(old(hooks)[id]).Some? && ButtonOf(old(hooks)[id]).value != [] && old(keymap.present)) ==>
                keymap.root == old(keymap.root)
    {
      if id !in hooks {
        return false;
      }
      var w := hooks[id];
      hooks := hooks - {id};
      var button := ButtonOf(w);
      if button.Some? && button.value != [] {
        keymap.RemoveFromKeymap(button.value, ButtonTypeOf(w));
      }
      ok := true;
    }
  }

  // ---------------------------------------------------------------- listing

  /** Python's ordering of two strings: code point by code point, a
      prefix first. */
  predicate LexLe(a: string, b: string)
  {
    a == [] || (b != [] && (a[0] < b[0] || (a[0] == b[0] && LexLe(a[1..], b[1..]))))
  }

  lemma {:induction false} LexLeTotal(a: string, b: string)
    ensures LexLe(a, b) || LexLe(b, a)
  {
    if a != [] && b != [] && a[0] == b[0] {
      LexLeTotal(a[1..], b[1..]);
    }
  }

  /** The sort key of `get_all_webhooks`: the number for an all-digit id,
      the id itself otherwise. Ids of the two kinds cannot be compared. */
  predicate KeyLe(a: string, b: string)
  {
    if IsDigits(a) && IsDigits(b) then DigitsValue(a) <= DigitsValue(b) else LexLe(a, b)
  }

  /** All ids are numeric (`digits`) or all are not. */
  predicate Uniform(ids: seq<string>, digits: bool)
  {
    forall i :: 0 <= i < |ids| ==> IsDigits(ids[i]) == digits
  }

  predicate SortedIds(ids: seq<string>)
  {
    forall i :: 0 <= i < |ids| - 1 ==> KeyLe(ids[i], ids[i + 1])
  }

  /** Insertion of one id, in front of the first id it is not after, so
      ids with equal keys keep their order. */
  function InsertId(x: string, xs: seq<string>): (r: seq<string>)
    ensures multiset(r) == multiset(xs) + multiset{x}
    ensures |r| == |xs| + 1
    ensures r[0] == x || (xs != [] && r[0] == xs[0])
  {
    if xs == [] then [x]
    else if KeyLe(x, xs[0]) then [x] + xs
    else
      assert xs == [xs[0]] + xs[1..];
      [xs[0]] + InsertId(x, xs[1..])
  }

  /** `result.sort(key=...)`, stable. */
  function SortIds(ids: seq<string>): (r: seq<string>)
    ensures multiset(r) == multiset(ids)
  {
    if ids == [] then []
    else
      assert ids == [ids[0]] + ids[1..];
      InsertId(ids[0], SortIds(ids[1..]))
  }

  lemma {:induction false} InsertIdSorted(x: string, xs: seq<string>, digits: bool)
    requires SortedIds(xs) && Uniform(xs, digits) && IsDigits(x) == digits
    ensures SortedIds(InsertId(x, xs))
  {
    if xs != [] && !KeyLe(x, xs[0]) {
      if !digits {
        LexLeTotal(x, xs[0]);
      }
      assert KeyLe(xs[0], x);
      InsertIdSorted(x, xs[1..], digits);
      var r := InsertId(x, xs[1..]);
      assert r[0] == x || r[0] == xs[1];
      assert InsertId(x, xs) == [xs[0]] + r;
    }
  }

  lemma {:induction false} SortIdsSorted(ids: seq<string>, digits: bool)
    requires Uniform(ids, digits)
    ensures SortedIds(SortIds(ids)) && Uniform(SortIds(ids), digits)
  {
    if ids != [] {
      SortIdsSorted(ids[1..], digits);
      var rest := SortIds(ids[1..]);
      InsertIdSorted(ids[0], rest, digits);
      var r := SortIds(ids);
      forall i | 0 <= i < |r|
        ensures IsDigits(r[i]) == digits
      {
        assert r[i] in multiset(r);
        assert r[i] in multiset(ids);
      }
    }
  }

  /** A webhook as `get_all_webhooks` lists it, with its defaults filled
      in. */
  datatype Listed = Listed(id: string, name: string, url: string, enabled: bool, button: Option<string>, buttonType: string)

  function Describe(id: string, w: Webhook): (r: Listed)
    ensures r.id == id && r.button == ButtonOf(w) && r.buttonType == ButtonTypeOf(w)
    ensures w.name.None? ==> r.name == "Webhook " + id
    ensures w.url.None? ==> r.url == []
    ensures w.enabled.None? ==> r.enabled
    ensures w.name.Some? ==> r.name == w.name.value
    ensures w.url.Some? ==> r.url == w.url.value
    ensures w.enabled.Some? ==> r.enabled == w.enabled.value
  {
    Listed(
      id,
      if w.name.Some? then w.name.value else "Webhook " + id,
      if w.url.Some? then w.url.value else "",
      if w.enabled.Some? then w.enabled.value else true,
      ButtonOf(w),
      ButtonTypeOf(w))
  }

  /** `get_all_webhooks`, given the ids in the store's order: sorted by
      number when every id is numeric, by text when none is, and a type
      error when numeric and other ids are mixed. */
  function AllWebhooks(hooks: map<string, Webhook>, order: seq<string>): (r: Result<seq<Listed>, string>)
    requires forall i :: 0 <= i < |order| ==> order[i] in hooks
    ensures r.Ok? <==> Uniform(order, true) || Uniform(order, false)
    ensures r.Ok? ==> |r.value| == |order| && multiset(order) == multiset(seq(|r.value|, i requires 0 <= i < |r.value| => r.value[i].id))
    ensures r.Ok? ==> SortedIds(seq(|r.value|, i requires 0 <= i < |r.value| => r.value[i].id))
    ensures r.Ok? ==> forall i :: 0 <= i < |r.value| ==> r.value[i].id in hooks && r.value[i] == Describe(r.value[i].id, hooks[r.value[i].id])
  {
    if !(Uniform(order, true) || Uniform(order, false)) then Err("TypeError")
    else
      var digits := Uniform(order, true);
      var sorted := SortIds(order);
      SortIdsSorted(order, digits);
      assert |sorted| == |multiset(sorted)| == |order|;
      forall i | 0 <= i < |sorted|
        ensures sorted[i] in hooks
      {
        assert sorted[i] in multiset(order);
      }
      var listed := seq(|sorted|, i requires 0 <= i < |sorted| => Describe(sorted[i], hooks[sorted[i]]));
      assert seq(|listed|, i requires 0 <= i < |listed| => listed[i].id) == sorted;
      Ok(listed)
  }

  /** Numeric ids are listed by value: "2" before "10". */
  lemma NumericOrderExample()
    ensures SortIds(["10", "2"]) == ["2", "10"]
  {
    assert IsDigits("10") && IsDigits("2");
    assert DigitsValue("10") == 10 && DigitsValue("2") == 2;
    assert SortIds(["2"]) == ["2"];
    assert ["10", "2"][1..] == ["2"];
  }

  // ---------------------------------------------------------------- running

  datatype RunOutcome = NotFound | Disabled | NoUrl | Send(url: string, name: string)

  /** An empty record is falsy, like a missing one. */
  predicate IsEmptyRecord(w: Webhook)
  {
    w == Webhook(None, None, None, None, None)
  }

  /** `run_webhook`: a webhook is sent only when it exists, is enabled and
      has a URL. */
  function RunDecision(hooks: map<string, Webhook>, id: string): (r: RunOutcome)
    ensures r.Send? <==> id in hooks && !IsEmptyRecord(hooks[id]) && hooks[id].enabled != Some(false) &&
                         hooks[id].url.Some? && hooks[id].url.value != []
    ensures r.NotFound? <==> id !in hooks || IsEmptyRecord(hooks[id])
    ensures r.Send? ==> r.url == hooks[id].url.value && r.name == Describe(id, hooks[id]).name
  {
    if id !in hooks || IsEmptyRecord(hooks[id]) then NotFound
    else
      var w := hooks[id];
      if w.enabled == Some(false) then Disabled
      else if w.url.None? || w.url.value == [] then NoUrl
      else Send(w.url.value, Describe(id, w).name)
  }

  /** A webhook just added is sent to its URL under its name, unless the
      URL is empty; once deleted it is not found; once disabled it is not
      sent. */
  lemma RunAfterChanges(hooks: map<string, Webhook>, id: string, name: string, url: string, c: Changes)
    ensures RunDecision(hooks[id := NewWebhook(name, url)], id) == (if url == [] then NoUrl else Send(url, name))
    ensures RunDecision(hooks - {id}, id) == NotFound
    ensures id in hooks && c.enabled == Some(false) ==> RunDecision(hooks[id := Apply(hooks[id], c)], id) == Disabled
  {
  }

  // ---------------------------------------------------------------- start-up argument

  /** `main`: the webhook id in the first script argument, either bare or
      after an `=`; none when there is no argument or it names nothing,
      in which case the menu is shown. */
  function StartupWebhookId(argv: seq<string>): (r: Option<string>)
    ensures r.Some? ==> |argv| > 1 && r.value != [] && '=' !in r.value
    ensures |argv| > 1 && '=' !in argv[1] && argv[1] != [] ==> r == Some(argv[1])
  {
    if |argv| <= 1 then None
    else
      var arg := argv[1];
      var id := if '=' in arg then Split(arg, '=')[1] else arg;
      if id != [] then Some(id) else None
  }

  /** The argument `webhook_id=<id>` starts the webhook `<id>`. */
  lemma StartupKeyValue(script: string, id: string)
    requires id != [] && '=' !in id
    ensures StartupWebhookId([script, "webhook_id=" + id]) == Some(id)
  {
    var arg := "webhook_id=" + id;
    assert arg == "webhook_id" + ['='] + id;
    SplitPrefix("webhook_id", id, '=');
    assert '=' in arg by { assert arg[10] == '='; }
  }
}
