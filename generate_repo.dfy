/** The repository generator (generate_repo.py): `addons.xml` is the
    concatenation, in a fixed folder order, of each add-on's `addon.xml`
    with its XML declaration removed and its lines indented by four
    spaces, between one declaration and an `<addons>` root element. */
module GenerateRepo {
  import opened Wrappers
  import opened Strings

  /** The folders scanned, in order. */
  const AddonFolders: seq<string> := [
    "repository.breezyslasher",
    "context.plexkodiconnect.download",
    "plugin.audio.audiobookshelf",
    "script.webhook.runner"
  ]

  const Header: string := "<?xml version=\"1.0\" encoding=\"UTF-8\"?>\n<addons>\n"
  const Footer: string := "</addons>\n"
  const Indentation: string := "    "

  // ---------------------------------------------------------------- declaration

  /** The part of `get_addon_xml_content` that drops the declaration: text
      starting with `<?xml` loses everything up to the first `?>` and is
      stripped. Python's `split("?>", 1)[1]` raises `IndexError` when there
      is no `?>`; that failure is the error here. */
  function StripDeclaration(content: string): (r: Result<string, string>)
    ensures !StartsWith(content, "<?xml") ==> r == Ok(content)
    ensures r.Err? <==> StartsWith(content, "<?xml") && !Contains(content, "?>")
  {
    if StartsWith(content, "<?xml") then
      match Find(content, "?>")
      case None => Err("IndexError")
      case Some(i) => Ok(Strip(content[i + 2..]))
    else
      Ok(content)
  }

  /** A declaration whose attributes hold no `?` is removed entirely, and
      only the stripped body is kept. */
  lemma DeclarationRemoved(attrs: string, body: string)
    requires '?' !in attrs
    ensures StripDeclaration("<?xml" + attrs + "?>" + body) == Ok(Strip(body))
  {
    var content := "<?xml" + attrs + "?>" + body;
    var n := 5 + |attrs|;
    assert content[..5] == "<?xml";
    assert OccursAt(content, "?>", n) by {
      assert content[n..n + 2] == "?>";
    }
    forall j: nat | j < n
      ensures !OccursAt(content, "?>", j)
    {
      if j == 1 {
        assert content[j + 1] == 'x';
        assert content[j..j + 2][1] == content[j + 1];
      } else {
        assert content[j] != '?' by {
          if j >= 5 {
            assert content[j] == attrs[j - 5];
          }
        }
        assert content[j..j + 2][0] == content[j];
      }
    }
    var f := Find(content, "?>");
    assert f.Some?;
    assert f.value == n;
    assert content[n + 2..] == body;
  }

  // ---------------------------------------------------------------- indentation

  /** A non-blank line gains four spaces; a blank one is kept as it is. */
  function IndentLine(line: string): (r: string)
    ensures Strip(line) != [] ==> r == Indentation + line
    ensures Strip(line) == [] ==> r == line
  {
    if Strip(line) != [] then Indentation + line else line
  }

  function IndentLines(lines: seq<string>): (r: seq<string>)
    ensures |r| == |lines|
    ensures forall i :: 0 <= i < |lines| ==> r[i] == IndentLine(lines[i])
  {
    seq(|lines|, i requires 0 <= i < |lines| => IndentLine(lines[i]))
  }

  /** The indentation of an add-on's content: its lines, each indented,
      joined with newlines again. */
  function Indent(content: string): string
  {
    Join(IndentLines(Split(content, '\n')), "\n")
  }

  lemma IndentLineNoNewline(line: string)
    requires '\n' !in line
    ensures '\n' !in IndentLine(line)
  {
    if Strip(line) != [] {
      var l := Indentation + line;
      forall i | 0 <= i < |l|
        ensures l[i] != '\n'
      {
        if i >= 4 {
          assert l[i] == line[i - 4];
        }
      }
    }
  }

  /** Indenting keeps the number of lines and changes each line as
      `IndentLine` says: non-blank lines gain four spaces, blank lines stay. */
  lemma IndentKeepsLines(content: string)
    ensures Split(Indent(content), '\n') == IndentLines(Split(content, '\n'))
    ensures |Split(Indent(content), '\n')| == |Split(content, '\n')|
  {
    var lines := Split(content, '\n');
    var indented := IndentLines(lines);
    forall k | 0 <= k < |indented|
      ensures '\n' !in indented[k]
    {
      IndentLineNoNewline(lines[k]);
    }
    SplitJoin(indented, '\n');
  }

  /** Removing four leading spaces from every non-blank line that has them. */
  function DedentLine(line: string): string
  {
    if Strip(line) != [] && StartsWith(line, Indentation) then line[4..] else line
  }

  function Dedent(text: string): string
  {
    var lines := Split(text, '\n');
    Join(seq(|lines|, i requires 0 <= i < |lines| => DedentLine(lines[i])), "\n")
  }

  /** A line indented and then dedented is the line again. */
  lemma DedentIndentLine(line: string)
    ensures DedentLine(IndentLine(line)) == line
  {
    if Strip(line) != [] {
      var l := Indentation + line;
      assert l[4..] == line;
      assert Strip(l) != [] by {
        StripEmptyIffBlank(l);
        StripEmptyIffBlank(line);
        var i :| 0 <= i < |line| && !IsSpace(line[i]);
        assert l[4 + i] == line[i];
      }
    }
  }

  /** The indentation loses nothing: dedenting the indented content gives
      the content back. */
  lemma DedentIndent(content: string)
    ensures Dedent(Indent(content)) == content
  {
    var lines := Split(content, '\n');
    IndentKeepsLines(content);
    var out := Split(Indent(content), '\n');
    var back := seq(|out|, i requires 0 <= i < |out| => DedentLine(out[i]));
    forall i | 0 <= i < |lines|
      ensures back[i] == lines[i]
    {
      DedentIndentLine(lines[i]);
    }
    assert back == lines;
    JoinSplit(content, '\n');
  }

  // ---------------------------------------------------------------- folders

  /** What a scanned folder holds: no `addon.xml`, or one with its text. A
      folder absent from the disk map is not a directory. */
  datatype Entry = NoAddonXml | AddonXml(content: string)

  /** What one folder adds to `addons.xml`: nothing when the folder or its
      `addon.xml` is missing or the content is empty (a warning is printed),
      otherwise the indented content and a newline. */
  function Contribution(folder: string, disk: map<string, Entry>): Result<string, string>
  {
    if folder !in disk then Ok([])
    else match disk[folder]
      case NoAddonXml => Ok([])
      case AddonXml(content) =>
        match StripDeclaration(content)
        case Err(e) => Err(e)
        case Ok(x) => if x == [] then Ok([]) else Ok(Indent(x) + "\n")
  }

  /** Only an unclosed declaration fails; a missing folder or file adds
      nothing, and an add-on adds its indented content and a newline. */
  lemma ContributionCases(folder: string, disk: map<string, Entry>)
    ensures folder !in disk || disk[folder] == NoAddonXml ==> Contribution(folder, disk) == Ok([])
    ensures Contribution(folder, disk).Err? <==>
      folder in disk && disk[folder].AddonXml? &&
      StartsWith(disk[folder].content, "<?xml") && !Contains(disk[folder].content, "?>")
    ensures Contribution(folder, disk).Ok? && Contribution(folder, disk).value != [] ==>
      folder in disk && disk[folder].AddonXml? &&
      Contribution(folder, disk).value == Indent(StripDeclaration(disk[folder].content).value) + "\n"
  {
  }

  /** The contributions of `folders`, in their order. */
  function Contributions(folders: seq<string>, disk: map<string, Entry>): (r: seq<Result<string, string>>)
    ensures |r| == |folders|
    ensures forall i :: 0 <= i < |folders| ==> r[i] == Contribution(folders[i], disk)
  {
    seq(|folders|, i requires 0 <= i < |folders| => Contribution(folders[i], disk))
  }

  /** Appending contributions one after another; the first failure ends the
      run, since the exception leaves the loop. */
  function Concat(parts: seq<Result<string, string>>): Result<string, string>
  {
    if parts == [] then Ok([])
    else
      match Concat(parts[..|parts| - 1])
      case Err(e) => Err(e)
      case Ok(b) =>
        match parts[|parts| - 1]
        case Err(e) => Err(e)
        case Ok(c) => Ok(b + c)
  }

  function Body(folders: seq<string>, disk: map<string, Entry>): Result<string, string>
  {
    Concat(Contributions(folders, disk))
  }

  /** `generate_addons_xml` over any folder list. */
  function AddonsXmlOf(folders: seq<string>, disk: map<string, Entry>): (r: Result<string, string>)
    ensures r.Ok? ==> StartsWith(r.value, Header) && EndsWith(r.value, Footer)
    ensures r.Err? ==> r == Body(folders, disk)
    ensures r.Ok? <==> Body(folders, disk).Ok?
  {
    match Body(folders, disk)
    case Err(e) => Err(e)
    case Ok(b) =>
      var x := Header + b + Footer;
      assert x[..|Header|] == Header;
      assert x[|x| - |Footer|..] == Footer;
      Ok(x)
  }

  /** `generate_addons_xml`: a loop appending each folder's contribution to
      the header, then the footer. */
  method GenerateAddonsXml(disk: map<string, Entry>) returns (r: Result<string, string>)
    ensures r == AddonsXmlOf(AddonFolders, disk)
  {
    ghost var cs := Contributions(AddonFolders, disk);
    ghost var body: string := [];
    var xml := Header;
    var i := 0;
    while i < |AddonFolders|
      invariant 0 <= i <= |AddonFolders|
      invariant Concat(cs[..i]) == Ok(body)
      invariant xml == Header + body
    {
      var c := Contribution(AddonFolders[i], disk);
      ConcatStep(cs, i);
      if c.Err? {
        return Err(c.error);
      }
      AppendAssociative(Header, body, c.value);
      xml := xml + c.value;
      body := body + c.value;
      i := i + 1;
    }
    assert cs[..i] == cs;
    xml := xml + Footer;
    return Ok(xml);
  }

  /** One more contribution: appended on success, and on failure the
      failure is the result of the whole run. */
  lemma ConcatStep(cs: seq<Result<string, string>>, i: nat)
    requires i < |cs| && Concat(cs[..i]).Ok?
    ensures cs[i].Ok? ==> Concat(cs[..i + 1]) == Ok(Concat(cs[..i]).value + cs[i].value)
    ensures cs[i].Err? ==> Concat(cs) == cs[i]
  {
    assert cs[..i + 1][..i] == cs[..i];
    assert cs[..i + 1][i] == cs[i];
    if cs[i].Err? {
      ConcatAppend(cs[..i + 1], cs[i + 1..]);
      assert cs[..i + 1] + cs[i + 1..] == cs;
    }
  }

  lemma AppendAssociative(a: string, b: string, c: string)
    ensures a + (b + c) == (a + b) + c
  {
  }

  /** Appending two lists of contributions: the result of the first followed
      by the result of the second, and the first failure wins. */
  lemma {:induction false} ConcatAppend(a: seq<Result<string, string>>, b: seq<Result<string, string>>)
    ensures Concat(a + b).Ok? <==> Concat(a).Ok? && Concat(b).Ok?
    ensures Concat(a + b).Ok? ==> Concat(a + b).value == Concat(a).value + Concat(b).value
    ensures Concat(a).Err? ==> Concat(a + b) == Concat(a)
  {
    if b == [] {
      assert a + b == a;
    } else {
      var init := b[..|b| - 1];
      ConcatAppend(a, init);
      assert (a + b)[..|a + b| - 1] == a + init;
      assert (a + b)[|a + b| - 1] == b[|b| - 1];
    }
  }

  /** Contributions fail exactly when one of them does. */
  lemma {:induction false} ConcatFails(parts: seq<Result<string, string>>)
    ensures Concat(parts).Err? <==> exists i :: 0 <= i < |parts| && parts[i].Err?
  {
    if parts != [] {
      var init := parts[..|parts| - 1];
      ConcatFails(init);
      if exists i :: 0 <= i < |init| && init[i].Err? {
        var i :| 0 <= i < |init| && init[i].Err?;
        assert parts[i] == init[i];
      }
      if exists i :: 0 <= i < |parts| && parts[i].Err? {
        var i :| 0 <= i < |parts| && parts[i].Err?;
        if i < |init| {
          assert init[i] == parts[i];
        }
      }
    }
  }

  /** Scanning two lists of folders one after the other gives the output
      of the first followed by the output of the second; a failure in
      either is a failure of the whole. */
  lemma BodyAppend(f1: seq<string>, f2: seq<string>, disk: map<string, Entry>)
    ensures Body(f1 + f2, disk).Ok? <==> Body(f1, disk).Ok? && Body(f2, disk).Ok?
    ensures Body(f1 + f2, disk).Ok? ==> Body(f1 + f2, disk).value == Body(f1, disk).value + Body(f2, disk).value
  {
    assert Contributions(f1 + f2, disk) == Contributions(f1, disk) + Contributions(f2, disk);
    ConcatAppend(Contributions(f1, disk), Contributions(f2, disk));
  }

  /** A run fails exactly when some folder's `addon.xml` starts a
      declaration it never closes. */
  lemma BodyFails(folders: seq<string>, disk: map<string, Entry>)
    ensures Body(folders, disk).Err? <==>
      exists i :: 0 <= i < |folders| && folders[i] in disk && disk[folders[i]].AddonXml? &&
        StartsWith(disk[folders[i]].content, "<?xml") && !Contains(disk[folders[i]].content, "?>")
  {
    ConcatFails(Contributions(folders, disk));
    forall i | 0 <= i < |folders| {
      ContributionCases(folders[i], disk);
    }
  }

  /** Contributions that are all empty add nothing. */
  lemma {:induction false} ConcatEmpty(parts: seq<Result<string, string>>)
    requires forall i :: 0 <= i < |parts| ==> parts[i] == Ok([])
    ensures Concat(parts) == Ok([])
  {
    if parts != [] {
      var init := parts[..|parts| - 1];
      assert forall i :: 0 <= i < |init| ==> init[i] == parts[i];
      ConcatEmpty(init);
      assert parts[|parts| - 1] == Ok([]);
      var e: string := [];
      assert e + e == e;
    }
  }

  /** Folders that are missing, or lack an `addon.xml`, contribute nothing:
      with no add-on at all the output is the bare header and footer. */
  lemma MissingContributeNothing(folders: seq<string>, disk: map<string, Entry>)
    requires forall i :: 0 <= i < |folders| ==> folders[i] !in disk || disk[folders[i]] == NoAddonXml
    ensures Body(folders, disk) == Ok([])
    ensures AddonsXmlOf(folders, disk) == Ok(Header + Footer)
  {
    forall i | 0 <= i < |folders| {
      ContributionCases(folders[i], disk);
    }
    ConcatEmpty(Contributions(folders, disk));
    assert Header + [] + Footer == Header + Footer;
  }

  /** Four contributions that all succeed are appended in their order. */
  lemma ConcatFour(cs: seq<Result<string, string>>)
    requires |cs| == 4 && cs[0].Ok? && cs[1].Ok? && cs[2].Ok? && cs[3].Ok?
    ensures Concat(cs) == Ok(cs[0].value + cs[1].value + cs[2].value + cs[3].value)
  {
    var c0, c1, c2, c3 := cs[0].value, cs[1].value, cs[2].value, cs[3].value;
    assert cs[..1][..0] == [];
    assert cs[..1][0] == cs[0];
    assert Concat(cs[..1]) == Ok([] + c0);
    assert [] + c0 == c0;
    assert cs[..2][..1] == cs[..1];
    assert Concat(cs[..2]) == Ok(c0 + c1);
    assert cs[..3][..2] == cs[..2];
    assert Concat(cs[..3]) == Ok(c0 + c1 + c2);
    assert cs[..3] == cs[..|cs| - 1];
  }

  /** The add-ons appear in the order of `AddonFolders`, each folder's
      contribution in its place. */
  lemma AddonsInOrder(disk: map<string, Entry>)
    requires forall i :: 0 <= i < |AddonFolders| ==> Contribution(AddonFolders[i], disk).Ok?
    ensures AddonsXmlOf(AddonFolders, disk) ==
      Ok(Header
         + (Contribution(AddonFolders[0], disk).value
            + Contribution(AddonFolders[1], disk).value
            + Contribution(AddonFolders[2], disk).value
            + Contribution(AddonFolders[3], disk).value)
         + Footer)
  {
    var cs := Contributions(AddonFolders, disk);
    assert cs == [Contribution(AddonFolders[0], disk), Contribution(AddonFolders[1], disk),
                  Contribution(AddonFolders[2], disk), Contribution(AddonFolders[3], disk)];
    ConcatFour(cs);
  }
}
