/** The buttons of the Webhook Runner script
    (script.webhook.runner/resources/lib/default.py): mappings written
    into the Keymap Editor's keymap tree, removed from it, and read back
    from it. A mapping runs `RunScript(<addon id>,<webhook id>)`. */
module WebhookKeymap {
  import opened Wrappers
  import opened Strings

  const AddonId := "script.webhook.runner"

  // ---------------------------------------------------------------- actions

  /** The action a mapped button runs. */
  function RunScriptAction(webhookId: string): string
  {
    "RunScript(" + AddonId + "," + webhookId + ")"
  }

  /** `text.split(',')[1].rstrip(')')`: the webhook id of an action, or
      nothing when the text has no comma (the `IndexError` is swallowed). */
  function ActionWebhookId(text: string): (r: Option<string>)
    ensures r.Some? ==> ',' !in r.value && (r.value == [] || r.value[|r.value| - 1] != ')')
  {
    var parts := Split(text, ',');
    if |parts| < 2 then None else Some(RStrip(parts[1], ')'))
  }

  /** Stripping `)` off `s + ")"` gives back `s` when `s` itself does not
      end in `)`. */
  lemma RStripClosing(s: string)
    requires s == [] || s[|s| - 1] != ')'
    ensures RStrip(s + ")", ')') == s
  {
    var t := s + ")";
    var r := RStrip(t, ')');
    assert t[..|r|] == r;
    assert r == t[..|s|] == s;
  }

  /** The webhook id written into an action is the one read back from it,
      for an id without a comma that does not end in `)`. */
  lemma ActionRoundTrip(webhookId: string)
    requires ',' !in webhookId && (webhookId == [] || webhookId[|webhookId| - 1] != ')')
    ensures ActionWebhookId(RunScriptAction(webhookId)) == Some(webhookId)
  {
    var head := "RunScript(" + AddonId;
    assert RunScriptAction(webhookId) == head + [','] + (webhookId + ")");
    assert ',' !in head;
    SplitPrefix(head, webhookId + ")", ',');
    assert ',' !in webhookId + ")";
    RStripClosing(webhookId);
  }

  /** Every action names the addon. */
  lemma ActionNamesAddon(webhookId: string)
    ensures Contains(RunScriptAction(webhookId), AddonId)
  {
    var a := RunScriptAction(webhookId);
    assert a[10..10 + |AddonId|] == AddonId;
    assert OccursAt(a, AddonId, 10);
  }

  // ---------------------------------------------------------------- the tree

  /** An element of the keymap XML tree. */
  datatype Element = Element(tag: string, attrs: map<string, string>, text: Option<string>, children: seq<Element>)

  /** The tree when there is no keymap file yet. */
  const EmptyKeymap := Element("keymap", map[], None, [])

  /** `parent.find(tag)`: the first child with that tag. */
  function FindChild(children: seq<Element>, tag: string): (r: Option<nat>)
    ensures r.Some? ==> r.value < |children| && children[r.value].tag == tag
    ensures r.Some? ==> forall j :: 0 <= j < r.value ==> children[j].tag != tag
    ensures r.None? ==> forall j :: 0 <= j < |children| ==> children[j].tag != tag
  {
    if children == [] then None
    else if children[0].tag == tag then Some(0)
    else
      match FindChild(children[1..], tag)
      case Some(j) => Some(j + 1)
      case None => None
  }

  function Child(e: Element, tag: string): Option<Element>
  {
    match FindChild(e.children, tag)
    case Some(i) => Some(e.children[i])
    case None => None
  }

  /** `get_or_create(parent, tag)`: the first child with that tag, appended
      empty when there is none. */
  function GetOrCreate(parent: Element, tag: string): (r: (Element, nat))
    ensures r.1 < |r.0.children| && FindChild(r.0.children, tag) == Some(r.1)
    ensures r.0.tag == parent.tag
  {
    match FindChild(parent.children, tag)
    case Some(i) => (parent, i)
    case None =>
      var cs := parent.children + [Element(tag, map[], None, [])];
      assert cs[|parent.children|].tag == tag;
      (parent.(children := cs), |parent.children|)
  }

  function Without(xs: seq<Element>, j: nat): seq<Element>
    requires j < |xs|
  {
    xs[..j] + xs[j + 1..]
  }

  /** A button element maps to this addon when its text names it. */
  predicate Mapped(e: Element)
  {
    e.text.Some? && Contains(e.text.value, AddonId)
  }

  /** A raw button code is an all-digit name above 1000. */
  predicate IsRawCode(button: string)
  {
    IsDigits(button) && DigitsValue(button) > 1000
  }

  predicate IsKeyWithId(e: Element, button: string)
  {
    e.tag == "key" && "id" in e.attrs && e.attrs["id"] == button
  }

  /** The first `key` child with that id. */
  function FirstKeyWithId(children: seq<Element>, button: string): (r: Option<nat>)
    ensures r.Some? ==> r.value < |children| && IsKeyWithId(children[r.value], button)
    ensures r.Some? ==> forall j :: 0 <= j < r.value ==> !IsKeyWithId(children[j], button)
    ensures r.None? ==> forall j :: 0 <= j < |children| ==> !IsKeyWithId(children[j], button)
  {
    if children == [] then None
    else if IsKeyWithId(children[0], button) then Some(0)
    else
      match FirstKeyWithId(children[1..], button)
      case Some(j) => Some(j + 1)
      case None => None
  }

  /** The first `key` child with that id that maps to this addon. */
  function FirstMappedKey(children: seq<Element>, button: string): (r: Option<nat>)
    ensures r.Some? ==> r.value < |children| && IsKeyWithId(children[r.value], button) && Mapped(children[r.value])
    ensures r.Some? ==> forall j :: 0 <= j < r.value ==> !(IsKeyWithId(children[j], button) && Mapped(children[j]))
    ensures r.None? ==> forall j :: 0 <= j < |children| ==> !(IsKeyWithId(children[j], button) && Mapped(children[j]))
  {
    if children == [] then None
    else if IsKeyWithId(children[0], button) && Mapped(children[0]) then Some(0)
    else
      match FirstMappedKey(children[1..], button)
      case Some(j) => Some(j + 1)
      case None => None
  }

  /** The `<section>` element under `<global>`. */
  function SectionOf(root: Element, section: string): Option<Element>
  {
    match Child(root, "global")
    case Some(g) => Child(g, section)
    case None => None
  }

  /** The mapping of a standard button in a section. */
  function SectionButton(root: Element, section: string, button: string): Option<Element>
  {
    match SectionOf(root, section)
    case Some(d) => Child(d, button)
    case None => None
  }

  /** The `key` element of a raw button code under `<global><keyboard>`,
      where a raw code is written. */
  function RawKey(root: Element, button: string): Option<Element>
  {
    match SectionOf(root, "keyboard")
    case Some(kb) =>
      (match FirstKeyWithId(kb.children, button)
       case Some(j) => Some(kb.children[j])
       case None => None)
    case None => None
  }

  // ---------------------------------------------------------------- adding

  /** `add_to_keymap`: the tree afterwards, and the text of the element
      already there, when there is one (then nothing is written). */
  function AddMapping(root: Element, button: string, buttonType: string, webhookId: string, longpress: bool)
    : (r: (Element, Option<Option<string>>))
    ensures r.1.Some? ==> r.0 == root
  {
    var action := RunScriptAction(webhookId);
    var (r1, gi) := GetOrCreate(root, "global");
    if IsRawCode(button) then
      var (g1, ki) := GetOrCreate(r1.children[gi], "keyboard");
      var kb := g1.children[ki];
      match FirstKeyWithId(kb.children, button)
      case Some(j) => (root, Some(kb.children[j].text))
      case None =>
        var attrs := if longpress then map["id" := button, "mod" := "longpress"] else map["id" := button];
        var kb' := kb.(children := kb.children + [Element("key", attrs, Some(action), [])]);
        (r1.(children := r1.children[gi := g1.(children := g1.children[ki := kb'])]), None)
    else
      var (g1, di) := GetOrCreate(r1.children[gi], buttonType);
      var dev := g1.children[di];
      match FindChild(dev.children, button)
      case Some(j) => (root, Some(dev.children[j].text))
      case None =>
        var dev' := dev.(children := dev.children + [Element(button, map[], Some(action), [])]);
        (r1.(children := r1.children[gi := g1.(children := g1.children[di := dev'])]), None)
  }

  /** Replacing a child by one with the same tag leaves every `find` where
      it was. */
  lemma FindChildUpdate(cs: seq<Element>, i: nat, e: Element, tag: string)
    requires i < |cs| && e.tag == cs[i].tag
    ensures FindChild(cs[i := e], tag) == FindChild(cs, tag)
  {
    assert forall j :: 0 <= j < |cs| ==> cs[i := e][j].tag == cs[j].tag;
  }

  /** A child appended after a missing tag is what `find` gives. */
  lemma FindChildAppend(cs: seq<Element>, e: Element)
    requires FindChild(cs, e.tag).None?
    ensures FindChild(cs + [e], e.tag) == Some(|cs|)
  {
    var r := FindChild(cs + [e], e.tag);
    assert (cs + [e])[|cs|].tag == e.tag;
  }

  lemma FirstKeyAppend(cs: seq<Element>, e: Element, button: string)
    requires FirstKeyWithId(cs, button).None? && IsKeyWithId(e, button)
    ensures FirstKeyWithId(cs + [e], button) == Some(|cs|)
  {
    var r := FirstKeyWithId(cs + [e], button);
    assert IsKeyWithId((cs + [e])[|cs|], button);
  }

  /** Where `add_to_keymap` puts a standard button: the section it finds
      or creates holds no element of that button when the tree had none. */
  lemma StandardTarget(root: Element, buttonType: string, button: string)
    requires SectionButton(root, buttonType, button).None?
    ensures var (r1, gi) := GetOrCreate(root, "global");
            var (g1, di) := GetOrCreate(r1.children[gi], buttonType);
            FindChild(g1.children[di].children, button).None?
  {
    var (r1, gi) := GetOrCreate(root, "global");
    var (g1, di) := GetOrCreate(r1.children[gi], buttonType);
    if FindChild(root.children, "global").Some? {
      assert r1.children[gi] == Child(root, "global").value;
      if FindChild(r1.children[gi].children, buttonType).Some? {
        assert g1.children[di] == SectionOf(root, buttonType).value;
      }
    }
  }

  /** The same for the `key` element of a raw code. */
  lemma RawTarget(root: Element, button: string)
    requires RawKey(root, button).None?
    ensures var (r1, gi) := GetOrCreate(root, "global");
            var (g1, ki) := GetOrCreate(r1.children[gi], "keyboard");
            FirstKeyWithId(g1.children[ki].children, button).None?
  {
    var (r1, gi) := GetOrCreate(root, "global");
    var (g1, ki) := GetOrCreate(r1.children[gi], "keyboard");
    if FindChild(root.children, "global").Some? {
      assert r1.children[gi] == Child(root, "global").value;
      if FindChild(r1.children[gi].children, "keyboard").Some? {
        assert g1.children[ki] == SectionOf(root, "keyboard").value;
      }
    }
  }

  /** A standard button that is not mapped in its section yet gets the
      action of the webhook there, and nothing is returned. */
  lemma AddStandardPlaces(root: Element, button: string, buttonType: string, webhookId: string, longpress: bool)
    requires !IsRawCode(button) && SectionButton(root, buttonType, button).None?
    ensures AddMapping(root, button, buttonType, webhookId, longpress).1 == None
    ensures SectionButton(AddMapping(root, button, buttonType, webhookId, longpress).0, buttonType, button)
              == Some(Element(button, map[], Some(RunScriptAction(webhookId)), []))
  {
    StandardTarget(root, buttonType, button);
    var (r1, gi) := GetOrCreate(root, "global");
    var (g1, di) := GetOrCreate(r1.children[gi], buttonType);
    var dev := g1.children[di];
    var e := Element(button, map[], Some(RunScriptAction(webhookId)), []);
    var dev' := dev.(children := dev.children + [e]);
    var g2 := g1.(children := g1.children[di := dev']);
    var r2 := r1.(children := r1.children[gi := g2]);
    assert AddMapping(root, button, buttonType, webhookId, longpress) == (r2, None);
    FindChildUpdate(r1.children, gi, g2, "global");
    FindChildUpdate(g1.children, di, dev', buttonType);
    FindChildAppend(dev.children, e);
    assert Child(r2, "global") == Some(g2);
    assert Child(g2, buttonType) == Some(dev');
  }

  /** A button that is mapped already is left alone, and the text of its
      element is returned. */
  lemma AddStandardExisting(root: Element, button: string, buttonType: string, webhookId: string, longpress: bool)
    requires !IsRawCode(button) && SectionButton(root, buttonType, button).Some?
    ensures AddMapping(root, button, buttonType, webhookId, longpress)
              == (root, Some(SectionButton(root, buttonType, button).value.text))
  {
    var (r1, gi) := GetOrCreate(root, "global");
    assert r1 == root && r1.children[gi] == Child(root, "global").value;
    var (g1, di) := GetOrCreate(r1.children[gi], buttonType);
    assert g1 == r1.children[gi] && g1.children[di] == SectionOf(root, buttonType).value;
  }

  // ---------------------------------------------------------------- removing

  /** One pass of the section loop of `remove_from_keymap`: the first
      element of that button in the section goes when it maps to this
      addon. */
  function RemoveFromSection(g: Element, section: string, button: string): (r: Element)
    ensures r.tag == g.tag
  {
    match FindChild(g.children, section)
    case None => g
    case Some(d) =>
      var dev := g.children[d];
      match FindChild(dev.children, button)
      case None => g
      case Some(b) =>
        if Mapped(dev.children[b]) then g.(children := g.children[d := dev.(children := Without(dev.children, b))])
        else g
  }

  /** Removing the mapped `key` element of a raw code from a keyboard
      section. */
  function RemoveRawKey(kb: Element, button: string): (r: Element)
    ensures r.tag == kb.tag
  {
    match FirstMappedKey(kb.children, button)
    case None => kb
    case Some(j) => kb.(children := Without(kb.children, j))
  }

  /** Two trees with the same root tag and the same top-level sections, in
      the same order: a removal rewrites sections, it never adds or drops one. */
  predicate SameShape(a: Element, b: Element)
  {
    a.tag == b.tag && |a.children| == |b.children| &&
    forall i :: 0 <= i < |a.children| ==> a.children[i].tag == b.children[i].tag
  }

  /** The standard-button branch of `remove_from_keymap`: the button goes
      from its own section and from `universalremote`. */
  function RemoveStandard(root: Element, button: string, buttonType: string): (r: Element)
    ensures SameShape(r, root)
  {
    match FindChild(root.children, "global")
    case None => root
    case Some(gi) =>
      var g := RemoveFromSection(RemoveFromSection(root.children[gi], buttonType, button), "universalremote", button);
      root.(children := root.children[gi := g])
  }

  /** `remove_from_keymap` as written: a raw code is looked for in a
      top-level `<keyboard>`, which `add_to_keymap` never creates. */
  function RemoveMappingAsWritten(root: Element, button: string, buttonType: string): (r: Element)
    ensures SameShape(r, root)
    ensures IsRawCode(button) && FindChild(root.children, "keyboard").None? ==> r == root
  {
    if IsRawCode(button) then
      match FindChild(root.children, "keyboard")
      case None => root
      case Some(i) => root.(children := root.children[i := RemoveRawKey(root.children[i], button)])
    else RemoveStandard(root, button, buttonType)
  }

  /** `remove_from_keymap` with the raw code looked for where it is
      written, under `<global><keyboard>`. */
  function RemoveMapping(root: Element, button: string, buttonType: string): (r: Element)
    ensures SameShape(r, root)
    ensures IsRawCode(button) && SectionOf(root, "keyboard").None? ==> r == root
  {
    if IsRawCode(button) then
      match FindChild(root.children, "global")
      case None => root
      case Some(gi) =>
        var g := root.children[gi];
        match FindChild(g.children, "keyboard")
        case None => root
        case Some(ki) =>
          root.(children := root.children[gi := g.(children := g.children[ki := RemoveRawKey(g.children[ki], button)])])
    else RemoveStandard(root, button, buttonType)
  }

  /** A pass over one section keeps a button absent from any section. */
  lemma RemoveFromSectionKeepsAbsence(g: Element, section: string, button: string, other: string)
    requires match Child(g, other) case Some(d) => Child(d, button).None? case None => true
    ensures match Child(RemoveFromSection(g, section, button), other) case Some(d) => Child(d, button).None? case None => true
  {
    match FindChild(g.children, section)
    case None =>
    case Some(d) =>
      var dev := g.children[d];
      match FindChild(dev.children, button)
      case None =>
      case Some(b) =>
        if Mapped(dev.children[b]) {
          var dev' := dev.(children := Without(dev.children, b));
          FindChildUpdate(g.children, d, dev', other);
        }
  }

  /** An element appended to a section where its button was missing is
      the one the section pass removes, which restores the section. */
  lemma RemoveAppended(g1: Element, di: nat, e: Element, buttonType: string)
    requires di < |g1.children| && FindChild(g1.children, buttonType) == Some(di)
    requires FindChild(g1.children[di].children, e.tag).None? && Mapped(e)
    ensures var dev := g1.children[di];
      RemoveFromSection(g1.(children := g1.children[di := dev.(children := dev.children + [e])]), buttonType, e.tag) == g1
  {
    var dev := g1.children[di];
    var dev' := dev.(children := dev.children + [e]);
    var g2 := g1.(children := g1.children[di := dev']);
    FindChildUpdate(g1.children, di, dev', buttonType);
    FindChildAppend(dev.children, e);
    assert Without(dev'.children, |dev.children|) == dev.children;
    assert g2.children[di := dev] == g1.children;
  }

  /** Mapping a standard button and then removing it leaves the button
      unmapped in its section. */
  lemma AddThenRemoveStandard(root: Element, button: string, buttonType: string, webhookId: string, longpress: bool)
    requires !IsRawCode(button) && SectionButton(root, buttonType, button).None?
    ensures SectionButton(RemoveMapping(AddMapping(root, button, buttonType, webhookId, longpress).0, button, buttonType), buttonType, button).None?
  {
    StandardTarget(root, buttonType, button);
    var (r1, gi) := GetOrCreate(root, "global");
    var (g1, di) := GetOrCreate(r1.children[gi], buttonType);
    var dev := g1.children[di];
    var e := Element(button, map[], Some(RunScriptAction(webhookId)), []);
    var dev' := dev.(children := dev.children + [e]);
    var g2 := g1.(children := g1.children[di := dev']);
    var added := r1.(children := r1.children[gi := g2]);
    assert AddMapping(root, button, buttonType, webhookId, longpress).0 == added;
    FindChildUpdate(r1.children, gi, g2, "global");
    ActionNamesAddon(webhookId);
    RemoveAppended(g1, di, e, buttonType);
    assert Child(g1, buttonType) == Some(dev);
    RemoveFromSectionKeepsAbsence(g1, "universalremote", button, buttonType);
    var g3 := RemoveFromSection(g1, "universalremote", button);
    FindChildUpdate(added.children, gi, g3, "global");
    assert RemoveMapping(added, button, buttonType) == added.(children := added.children[gi := g3]);
  }

  lemma FirstMappedKeyAppend(cs: seq<Element>, e: Element, button: string)
    requires FirstKeyWithId(cs, button).None? && IsKeyWithId(e, button) && Mapped(e)
    ensures FirstMappedKey(cs + [e], button) == Some(|cs|)
  {
    assert IsKeyWithId((cs + [e])[|cs|], button);
  }

  /** The raw code's `key` element added under `<global><keyboard>`. */
  function RawKeyElement(button: string, webhookId: string, longpress: bool): Element
  {
    Element("key", if longpress then map["id" := button, "mod" := "longpress"] else map["id" := button], Some(RunScriptAction(webhookId)), [])
  }

  /** Mapping a raw code puts its `key` element under
      `<global><keyboard>`. */
  lemma AddRawPlaces(root: Element, button: string, webhookId: string, longpress: bool)
    requires IsRawCode(button) && RawKey(root, button).None?
    ensures AddMapping(root, button, "keyboard", webhookId, longpress).1 == None
    ensures RawKey(AddMapping(root, button, "keyboard", webhookId, longpress).0, button) == Some(RawKeyElement(button, webhookId, longpress))
  {
    RawTarget(root, button);
    var (r1, gi) := GetOrCreate(root, "global");
    var (g1, ki) := GetOrCreate(r1.children[gi], "keyboard");
    var kb := g1.children[ki];
    var e := RawKeyElement(button, webhookId, longpress);
    var kb' := kb.(children := kb.children + [e]);
    var g2 := g1.(children := g1.children[ki := kb']);
    var added := r1.(children := r1.children[gi := g2]);
    assert AddMapping(root, button, "keyboard", webhookId, longpress) == (added, None);
    FindChildUpdate(r1.children, gi, g2, "global");
    FindChildUpdate(g1.children, ki, kb', "keyboard");
    FirstKeyAppend(kb.children, e, button);
    assert Child(added, "global") == Some(g2);
    assert Child(g2, "keyboard") == Some(kb');
  }

  /** As written, removing a raw code after mapping it leaves its `key`
      element in place: removal looks in a top-level `<keyboard>`. */
  lemma RawRemovalAsWrittenKeepsKey(root: Element, button: string, buttonType: string, webhookId: string, longpress: bool)
    requires IsRawCode(button) && RawKey(root, button).None?
    ensures var added := AddMapping(root, button, "keyboard", webhookId, longpress).0;
            RawKey(RemoveMappingAsWritten(added, button, buttonType), button) == Some(RawKeyElement(button, webhookId, longpress))
  {
    AddRawPlaces(root, button, webhookId, longpress);
    var added := AddMapping(root, button, "keyboard", webhookId, longpress).0;
    var removed := RemoveMappingAsWritten(added, button, buttonType);
    match FindChild(added.children, "keyboard")
    case None =>
    case Some(i) =>
      var kb := RemoveRawKey(added.children[i], button);
      FindChildUpdate(added.children, i, kb, "global");
      assert Child(removed, "global") == Child(added, "global");
  }

  /** A mapped `key` element appended where the code had none is the one
      removed again. */
  lemma RemoveRawAppended(kb: Element, e: Element, button: string)
    requires FirstKeyWithId(kb.children, button).None? && IsKeyWithId(e, button) && Mapped(e)
    ensures RemoveRawKey(kb.(children := kb.children + [e]), button) == kb
  {
    var kb' := kb.(children := kb.children + [e]);
    FirstMappedKeyAppend(kb.children, e, button);
    assert Without(kb'.children, |kb.children|) == kb.children;
  }

  /** Looking where the raw code is written, removing it after mapping it
      leaves no `key` element of that code. */
  lemma RawAddThenRemove(root: Element, button: string, buttonType: string, webhookId: string, longpress: bool)
    requires IsRawCode(button) && RawKey(root, button).None?
    ensures RawKey(RemoveMapping(AddMapping(root, button, "keyboard", webhookId, longpress).0, button, buttonType), button).None?
  {
    RawTarget(root, button);
    var (r1, gi) := GetOrCreate(root, "global");
    var (g1, ki) := GetOrCreate(r1.children[gi], "keyboard");
    var kb := g1.children[ki];
    var e := RawKeyElement(button, webhookId, longpress);
    var kb' := kb.(children := kb.children + [e]);
    var g2 := g1.(children := g1.children[ki := kb']);
    var added := r1.(children := r1.children[gi := g2]);
    assert AddMapping(root, button, "keyboard", webhookId, longpress).0 == added;
    FindChildUpdate(r1.children, gi, g2, "global");
    FindChildUpdate(g1.children, ki, kb', "keyboard");
    ActionNamesAddon(webhookId);
    RemoveRawAppended(kb, e, button);
    assert g2.children[ki := kb] == g1.children;
    var removed := added.(children := added.children[gi := g1]);
    assert RemoveMapping(added, button, buttonType) == removed;
    FindChildUpdate(added.children, gi, g1, "global");
    assert Child(removed, "global") == Some(g1);
  }

  // ---------------------------------------------------------------- reading back

  /** Webhook id to (button, section) for every button of this addon. */
  type Mappings = map<string, (string, string)>

  function ChildrenOf(e: Option<Element>): seq<Element>
  {
    if e.Some? then e.value.children else []
  }

  /** The raw-code pass of `get_keymap_mappings`: each `key` element with
      an id that maps to this addon, a later one overwriting an earlier. */
  function RawMappings(keys: seq<Element>, acc: Mappings): Mappings
  {
    if keys == [] then acc
    else
      var k := keys[0];
      var acc' :=
        if k.tag == "key" && Mapped(k) && "id" in k.attrs && k.attrs["id"] != [] && ActionWebhookId(k.text.value).Some?
        then acc[ActionWebhookId(k.text.value).value := (k.attrs["id"], "keyboard")]
        else acc;
      RawMappings(keys[1..], acc')
  }

  /** The pass over one section of `<global>`: every child that maps to
      this addon, named by its tag, unless its webhook is mapped already. */
  function DeviceMappings(buttons: seq<Element>, device: string, acc: Mappings): Mappings
  {
    if buttons == [] then acc
    else
      var b := buttons[0];
      var acc' :=
        if Mapped(b) && ActionWebhookId(b.text.value).Some? && ActionWebhookId(b.text.value).value !in acc
        then acc[ActionWebhookId(b.text.value).value := (b.tag, device)]
        else acc;
      DeviceMappings(buttons[1..], device, acc')
  }

  /** The raw-code pass over `raw`, then the sections `remote`,
      `keyboard` and `universalremote` of `global`. */
  function MappingsFrom(raw: Option<Element>, global: Option<Element>): Mappings
  {
    var m0 := RawMappings(ChildrenOf(raw), map[]);
    if global.None? then m0
    else
      var g := global.value;
      var m1 := DeviceMappings(ChildrenOf(Child(g, "remote")), "remote", m0);
      var m2 := DeviceMappings(ChildrenOf(Child(g, "keyboard")), "keyboard", m1);
      DeviceMappings(ChildrenOf(Child(g, "universalremote")), "universalremote", m2)
  }

  /** `get_keymap_mappings` as written: raw codes are read from a
      top-level `<keyboard>`. */
  function KeymapMappingsAsWritten(root: Element): (r: Mappings)
    ensures FromReadSections(r)
  {
    MappingsFromSections(Child(root, "keyboard"), Child(root, "global"));
    MappingsFrom(Child(root, "keyboard"), Child(root, "global"))
  }

  /** `get_keymap_mappings` reading raw codes where they are written. */
  function KeymapMappings(root: Element): (r: Mappings)
    ensures FromReadSections(r)
  {
    MappingsFromSections(SectionOf(root, "keyboard"), Child(root, "global"));
    MappingsFrom(SectionOf(root, "keyboard"), Child(root, "global"))
  }

  /** The three sections the mappings are read from. */
  predicate ReadSection(buttonType: string)
  {
    buttonType == "remote" || buttonType == "keyboard" || buttonType == "universalremote"
  }

  /** Every pair the mappings hold names one of the sections read. */
  predicate FromReadSections(m: Mappings)
  {
    forall id :: id in m ==> ReadSection(m[id].1)
  }

  lemma {:induction false} RawMappingsSections(keys: seq<Element>, acc: Mappings)
    requires FromReadSections(acc)
    ensures FromReadSections(RawMappings(keys, acc))
  {
    if keys != [] {
      var k := keys[0];
      var acc' :=
        if k.tag == "key" && Mapped(k) && "id" in k.attrs && k.attrs["id"] != [] && ActionWebhookId(k.text.value).Some?
        then acc[ActionWebhookId(k.text.value).value := (k.attrs["id"], "keyboard")]
        else acc;
      RawMappingsSections(keys[1..], acc');
    }
  }

  lemma {:induction false} DeviceMappingsSections(buttons: seq<Element>, device: string, acc: Mappings)
    requires ReadSection(device) && FromReadSections(acc)
    ensures FromReadSections(DeviceMappings(buttons, device, acc))
  {
    if buttons != [] {
      var b := buttons[0];
      var acc' :=
        if Mapped(b) && ActionWebhookId(b.text.value).Some? && ActionWebhookId(b.text.value).value !in acc
        then acc[ActionWebhookId(b.text.value).value := (b.tag, device)]
        else acc;
      DeviceMappingsSections(buttons[1..], device, acc');
    }
  }

  /** Whatever the tree, the mappings read name only `remote`, `keyboard`
      or `universalremote`. */
  lemma MappingsFromSections(raw: Option<Element>, global: Option<Element>)
    ensures FromReadSections(MappingsFrom(raw, global))
  {
    RawMappingsSections(ChildrenOf(raw), map[]);
    var m0 := RawMappings(ChildrenOf(raw), map[]);
    if global.Some? {
      var g := global.value;
      DeviceMappingsSections(ChildrenOf(Child(g, "remote")), "remote", m0);
      var m1 := DeviceMappings(ChildrenOf(Child(g, "remote")), "remote", m0);
      DeviceMappingsSections(ChildrenOf(Child(g, "keyboard")), "keyboard", m1);
      var m2 := DeviceMappings(ChildrenOf(Child(g, "keyboard")), "keyboard", m1);
      DeviceMappingsSections(ChildrenOf(Child(g, "universalremote")), "universalremote", m2);
    }
  }

  /** The tree after the first mapping of a standard button. */
  lemma FirstStandardShape(button: string, buttonType: string, webhookId: string, longpress: bool)
    requires !IsRawCode(button)
    ensures AddMapping(EmptyKeymap, button, buttonType, webhookId, longpress).0 ==
              Element("keymap", map[], None, [Element("global", map[], None, [Element(buttonType, map[], None, [Element(button, map[], Some(RunScriptAction(webhookId)), [])])])])
  {
    var global0 := Element("global", map[], None, []);
    var dev0 := Element(buttonType, map[], None, []);
    assert FindChild(EmptyKeymap.children, "global").None?;
    assert EmptyKeymap.children + [global0] == [global0];
    assert GetOrCreate(EmptyKeymap, "global") == (EmptyKeymap.(children := [global0]), 0);
    assert FindChild(global0.children, buttonType).None?;
    assert global0.children + [dev0] == [dev0];
    assert GetOrCreate(global0, buttonType) == (global0.(children := [dev0]), 0);
    assert FindChild(dev0.children, button).None?;
    var e := Element(button, map[], Some(RunScriptAction(webhookId)), []);
    var dev := dev0.(children := dev0.children + [e]);
    assert dev0.children + [e] == [e];
    var g := global0.(children := [dev0][0 := dev]);
    assert [dev0][0 := dev] == [dev];
    assert [global0][0 := g] == [g];
  }

  /** One mapped button, read in a section pass. */
  lemma DeviceMappingsOne(e: Element, device: string, acc: Mappings, webhookId: string)
    requires Mapped(e) && ActionWebhookId(e.text.value) == Some(webhookId)
    ensures DeviceMappings([e], device, acc) == if webhookId in acc then acc else acc[webhookId := (e.tag, device)]
  {
    assert [e][1..] == [];
  }

  /** The sections of a `<global>` holding a single section. */
  lemma SingleSection(dev: Element, g: Element)
    requires g.children == [dev]
    ensures Child(g, dev.tag) == Some(dev)
    ensures forall t :: t != dev.tag ==> Child(g, t).None?
  {
    assert [dev][1..] == [];
  }

  /** The first standard button mapped in a section that is read back is
      read back as mapped to its webhook. */
  lemma StandardReadBack(button: string, buttonType: string, webhookId: string, longpress: bool)
    requires !IsRawCode(button) && ReadSection(buttonType)
    requires ',' !in webhookId && (webhookId == [] || webhookId[|webhookId| - 1] != ')')
    ensures KeymapMappings(AddMapping(EmptyKeymap, button, buttonType, webhookId, longpress).0) == map[webhookId := (button, buttonType)]
    ensures KeymapMappingsAsWritten(AddMapping(EmptyKeymap, button, buttonType, webhookId, longpress).0) == map[webhookId := (button, buttonType)]
  {
    FirstStandardShape(button, buttonType, webhookId, longpress);
    ActionRoundTrip(webhookId);
    ActionNamesAddon(webhookId);
    var e := Element(button, map[], Some(RunScriptAction(webhookId)), []);
    var dev := Element(buttonType, map[], None, [e]);
    var g := Element("global", map[], None, [dev]);
    var root := Element("keymap", map[], None, [g]);
    SingleSection(g, root);
    SingleSection(dev, g);
    var m := map[webhookId := (button, buttonType)];
    DeviceMappingsOne(e, buttonType, map[], webhookId);
    DeviceMappingsOne(e, buttonType, m, webhookId);
    assert RawMappings([e], map[]) == map[] by {
      assert [e][1..] == [];
    }
    assert KeymapMappingsAsWritten(root) == m;
  }

  /** The tree after the first mapping of a raw code. */
  lemma FirstRawShape(button: string, webhookId: string, longpress: bool)
    requires IsRawCode(button)
    ensures AddMapping(EmptyKeymap, button, "keyboard", webhookId, longpress).0 ==
              Element("keymap", map[], None, [Element("global", map[], None, [Element("keyboard", map[], None, [RawKeyElement(button, webhookId, longpress)])])])
  {
    var global0 := Element("global", map[], None, []);
    var kb0 := Element("keyboard", map[], None, []);
    assert FindChild(EmptyKeymap.children, "global").None?;
    assert EmptyKeymap.children + [global0] == [global0];
    assert GetOrCreate(EmptyKeymap, "global") == (EmptyKeymap.(children := [global0]), 0);
    assert FindChild(global0.children, "keyboard").None?;
    assert global0.children + [kb0] == [kb0];
    assert GetOrCreate(global0, "keyboard") == (global0.(children := [kb0]), 0);
    assert FirstKeyWithId(kb0.children, button).None?;
    var e := RawKeyElement(button, webhookId, longpress);
    var kb := kb0.(children := kb0.children + [e]);
    assert kb0.children + [e] == [e];
    var g := global0.(children := [kb0][0 := kb]);
    assert [kb0][0 := kb] == [kb];
    assert [global0][0 := g] == [g];
  }

  /** As written, the first raw code mapped is read back as the button
      `key` (the element's tag) instead of its code. */
  lemma RawReadBackAsWritten(button: string, webhookId: string, longpress: bool)
    requires IsRawCode(button)
    requires ',' !in webhookId && (webhookId == [] || webhookId[|webhookId| - 1] != ')')
    ensures KeymapMappingsAsWritten(AddMapping(EmptyKeymap, button, "keyboard", webhookId, longpress).0) == map[webhookId := ("key", "keyboard")]
  {
    FirstRawShape(button, webhookId, longpress);
    ActionRoundTrip(webhookId);
    ActionNamesAddon(webhookId);
    var e := RawKeyElement(button, webhookId, longpress);
    var kb := Element("keyboard", map[], None, [e]);
    var g := Element("global", map[], None, [kb]);
    SingleSection(g, Element("keymap", map[], None, [g]));
    SingleSection(kb, g);
    DeviceMappingsOne(e, "keyboard", map[], webhookId);
  }

  /** Reading raw codes where they are written, the first raw code mapped
      is read back under its code. */
  lemma RawReadBack(button: string, webhookId: string, longpress: bool)
    requires IsRawCode(button)
    requires ',' !in webhookId && (webhookId == [] || webhookId[|webhookId| - 1] != ')')
    ensures KeymapMappings(AddMapping(EmptyKeymap, button, "keyboard", webhookId, longpress).0) == map[webhookId := (button, "keyboard")]
  {
    FirstRawShape(button, webhookId, longpress);
    ActionRoundTrip(webhookId);
    ActionNamesAddon(webhookId);
    var e := RawKeyElement(button, webhookId, longpress);
    var kb := Element("keyboard", map[], None, [e]);
    var g := Element("global", map[], None, [kb]);
    var m0 := map[webhookId := (button, "keyboard")];
    assert RawMappings([e], map[]) == m0 by {
      assert [e][1..] == [];
    }
    SingleSection(g, Element("keymap", map[], None, [g]));
    SingleSection(kb, g);
    DeviceMappingsOne(e, "keyboard", m0, webhookId);
  }

  // ---------------------------------------------------------------- the keymap file

  /** The keymap file: whether it exists, and the tree loading it gives
      (an empty `<keymap>` when it does not). */
  class Keymap {
    var present: bool
    var root: Element

    ghost predicate Valid()
      reads this
    {
      !present ==> root == EmptyKeymap
    }

    constructor ()
      ensures Valid() && !present
    {
      present := false;
      root := EmptyKeymap;
    }

    /** `add_to_keymap`: an existing mapping of the button is left alone and
        its text returned; otherwise the mapping is added, the file written
        and nothing returned. */
    method AddToKeymap(button: string, buttonType: string, webhookId: string, longpress: bool) returns (existing: Option<string>)
      requires Valid()
      modifies this
      ensures Valid()
      ensures var (r, e) := AddMapping(old(root), button, buttonType, webhookId, longpress);
              if e.Some? then root == old(root) && present == old(present) && existing == e.value
              else root == r && present && existing == None
    {
      var action := RunScriptAction(webhookId);
      var (r1, gi) := GetOrCreate(root, "global");
      if IsRawCode(button) {
        var (g1, ki) := GetOrCreate(r1.children[gi], "keyboard");
        var kb := g1.children[ki];
        var j := 0;
        while j < |kb.children|
          invariant j <= |kb.children|
          invariant forall t :: 0 <= t < j ==> !IsKeyWithId(kb.children[t], button)
        {
          if IsKeyWithId(kb.children[j], button) {
            assert FirstKeyWithId(kb.children, button) == Some(j);
            return kb.children[j].text;
          }
          j := j + 1;
        }
        var attrs := map["id" := button];
        if longpress {
          attrs := attrs["mod" := "longpress"];
        }
        var kb' := kb.(children := kb.children + [Element("key", attrs, Some(action), [])]);
        root := r1.(children := r1.children[gi := g1.(children := g1.children[ki := kb'])]);
      } else {
        var (g1, di) := GetOrCreate(r1.children[gi], buttonType);
        var dev := g1.children[di];
        var found := FindChild(dev.children, button);
        if found.Some? {
          return dev.children[found.value].text;
        }
        var dev' := dev.(children := dev.children + [Element(button, map[], Some(action), [])]);
        root := r1.(children := r1.children[gi := g1.(children := g1.children[di := dev'])]);
      }
      present := true;
      existing := None;
    }

    /** `remove_from_keymap`: nothing happens without a keymap file;
        otherwise the button's mapping to this addon goes, a raw code's
        being looked for in a top-level `<keyboard>`. */
    method RemoveFromKeymap(button: string, buttonType: string)
      requires Valid()
      modifies this
      ensures Valid() && present == old(present)
      ensures root == if old(present) then RemoveMappingAsWritten(old(root), button, buttonType) else old(root)
    {
      if !present {
        return;
      }
      if IsRawCode(button) {
        var ki := FindChild(root.children, "keyboard");
        if ki.None? {
          return;
        }
        var kb := root.children[ki.value];
        var j := 0;
        while j < |kb.children|
          invariant j <= |kb.children|
          invariant forall t :: 0 <= t < j ==> !(IsKeyWithId(kb.children[t], button) && Mapped(kb.children[t]))
        {
          if IsKeyWithId(kb.children[j], button) && Mapped(kb.children[j]) {
            assert FirstMappedKey(kb.children, button) == Some(j);
            var kb' := kb.(children := Without(kb.children, j));
            root := root.(children := root.children[ki.value := kb']);
            return;
          }
          j := j + 1;
        }
        assert root.children[ki.value := kb] == root.children;
      } else {
        root := RemoveStandard(root, button, buttonType);
      }
    }

    /** `get_keymap_mappings`: every mapping read names one of the sections
        read, none without a keymap file, and otherwise the mappings are
        read as written. */
    function Mappings(): (m: Mappings)
      reads this
      ensures forall id :: id in m ==> ReadSection(m[id].1)
      ensures !present ==> m == map[]
      ensures present ==> m == KeymapMappingsAsWritten(root)
    {
      if present then KeymapMappingsAsWritten(root) else map[]
    }
  }
}
