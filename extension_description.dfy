/**
 * ExtensionDescriptionFile: the validation and normalisation of an
 * extension's description read from an already-parsed YAML mapping, and the
 * mapping it is saved back as.
 *
 * A YAML value is a string, a list, null, or some other scalar that is only
 * ever used through its toString. Reading a key that is absent or mapped to
 * null gives null, as Map.get does; calling toString on it is the
 * NullPointerException that loadMap turns into a "not defined" error.
 */
module ExtensionDescription {
  import opened Wrappers

  datatype Value = Str(s: string) | List(items: seq<Value>) | Null | Other(text: string)

  /**
   * Object.toString. A list prints as AbstractCollection.toString does,
   * "[a, b]", and a null element inside it as "null".
   */
  function ToString(v: Value): string
  {
    match v
    case Str(s) => s
    case Other(text) => text
    case Null => "null"
    case List(items) => "[" + JoinItems(items) + "]"
  }

  /** The elements' strings separated by ", ". */
  function JoinItems(items: seq<Value>): string
  {
    if |items| == 0 then ""
    else if |items| == 1 then ToString(items[0])
    else ToString(items[0]) + ", " + JoinItems(items[1..])
  }

  /** Map.get: an absent key and a YAML null both read as null. */
  function Get(m: map<string, Value>, key: string): Option<Value>
  {
    if key in m && m[key] != Null then Some(m[key]) else None
  }

  /** String.valueOf for a nullable string. */
  function NullText(s: Option<string>): string
  {
    if s.Some? then s.value else "null"
  }

  /** The errors of loadMap, one per InvalidDescriptionException it throws. */
  datatype DescriptionError =
    | NameNotDefined
    | NameInvalid(name: string)
    | VersionNotDefined
    | MainNotDefined
    | MainForbidden
    | WrongType(key: string)
    | InvalidFormat(key: string)
    | AuthorsWrongType
    | AuthorsImproperlyDefined
    | PriorityNotDefined

  /** A character of the class [A-Za-z0-9 _.-]. */
  predicate NameChar(c: char)
  {
    ('A' <= c <= 'Z') || ('a' <= c <= 'z') || ('0' <= c <= '9') || c == ' ' || c == '_' || c == '.' || c == '-'
  }

  /** name.matches("^[A-Za-z0-9 _.-]+$"): at least one character, all of them in the class. */
  predicate ValidName(s: string)
  {
    |s| > 0 && forall i :: 0 <= i < |s| ==> NameChar(s[i])
  }

  predicate NoSpaces(s: string)
  {
    forall i :: 0 <= i < |s| ==> s[i] != ' '
  }

  /**
   * String.replace(' ', '_'): the same length, every space an underscore,
   * every other character kept; the result has no spaces and stays a valid
   * name when the input was one.
   */
  function Underscored(s: string): (r: string)
    ensures |r| == |s|
    ensures forall i :: 0 <= i < |s| ==> r[i] == if s[i] == ' ' then '_' else s[i]
    ensures NoSpaces(r)
    ensures ValidName(s) ==> ValidName(r)
  {
    if |s| == 0 then "" else [if s[0] == ' ' then '_' else s[0]] + Underscored(s[1..])
  }

  /** A string without spaces is left as it is. */
  lemma UnderscoredFixes(s: string)
    requires NoSpaces(s)
    ensures Underscored(s) == s
  {
    var r := Underscored(s);
    assert forall i :: 0 <= i < |s| ==> r[i] == s[i];
  }

  predicate StartsWith(s: string, prefix: string)
  {
    |prefix| <= |s| && s[..|prefix|] == prefix
  }

  /**
   * The namespace check on main. The second prefix is the literal
   * "org.cobraparser.*", asterisk included.
   */
  predicate ForbiddenMain(main: string)
  {
    StartsWith(main, "com.lobobrowser.") || StartsWith(main, "org.cobraparser.*")
  }

  /**
   * Because the asterisk is compared literally, a main class inside the
   * org.cobraparser package passes the check, while one inside
   * com.lobobrowser does not.
   */
  lemma CobraNamespaceLiteral()
    ensures !ForbiddenMain("org.cobraparser.Main")
    ensures ForbiddenMain("org.cobraparser.*Main")
    ensures ForbiddenMain("com.lobobrowser.Main")
  {
    var main := "org.cobraparser.Main";
    assert main[16] != "org.cobraparser.*"[16];
    assert main[..17] != "org.cobraparser.*";
    assert main[0] != "com.lobobrowser."[0];
    assert main[..16] != "com.lobobrowser.";
  }

  /** The strings of the elements of a list, or None when one of them is null. */
  function Strings(items: seq<Value>): (r: Option<seq<string>>)
    ensures r.Some? <==> forall i :: 0 <= i < |items| ==> items[i] != Null
    ensures r.Some? ==> |r.value| == |items| && forall i :: 0 <= i < |items| ==> r.value[i] == ToString(items[i])
  {
    if |items| == 0 then Some([])
    else if items[0] == Null then None
    else
      var rest := Strings(items[1..]);
      if rest.None? then None else Some([ToString(items[0])] + rest.value)
  }

  /**
   * makePluginNameList: no value gives the empty list; a list gives one
   * entry per element, in order, its string with spaces replaced; any other
   * value is of wrong type, and a null element is an invalid format.
   */
  function PluginNameList(m: map<string, Value>, key: string): (r: Result<seq<string>, DescriptionError>)
    ensures Get(m, key).None? ==> r == Success([])
    ensures Get(m, key).Some? && !Get(m, key).value.List? ==> r == Failure(WrongType(key))
    ensures Get(m, key).Some? && Get(m, key).value.List? ==>
              var items := Get(m, key).value.items;
              && (r.Success? <==> forall i :: 0 <= i < |items| ==> items[i] != Null)
              && (r.Failure? ==> r.error == InvalidFormat(key))
              && (r.Success? ==> |r.value| == |items| &&
                                 forall i :: 0 <= i < |items| ==> r.value[i] == Underscored(ToString(items[i])))
    ensures r.Success? ==> forall i :: 0 <= i < |r.value| ==> NoSpaces(r.value[i])
  {
    match Get(m, key)
    case None => Success([])
    case Some(value) =>
      if !value.List? then Failure(WrongType(key))
      else
        var strings := Strings(value.items);
        if strings.None? then Failure(InvalidFormat(key))
        else Success(seq(|strings.value|, i requires 0 <= i < |strings.value| => Underscored(strings.value[i])))
  }

  /**
   * The authors a load produces: with an authors list, the author entry (if
   * any) followed by the list's elements; with only an author, that one; with
   * neither, none. An authors value that is not a list is of wrong type, and
   * a null element is improperly defined.
   */
  function AuthorList(m: map<string, Value>): (r: Result<seq<string>, DescriptionError>)
    ensures Get(m, "authors").None? && Get(m, "author").None? ==> r == Success([])
    ensures Get(m, "authors").None? && Get(m, "author").Some? ==> r == Success([ToString(Get(m, "author").value)])
    ensures Get(m, "authors").Some? && !Get(m, "authors").value.List? ==> r == Failure(AuthorsWrongType)
    ensures Get(m, "authors").Some? && Get(m, "authors").value.List? ==>
              var items := Get(m, "authors").value.items;
              var first := if Get(m, "author").Some? then 1 else 0;
              && (r.Success? <==> forall i :: 0 <= i < |items| ==> items[i] != Null)
              && (r.Failure? ==> r.error == AuthorsImproperlyDefined)
              && (r.Success? ==>
                    && |r.value| == first + |items|
                    && (Get(m, "author").Some? ==> r.value[0] == ToString(Get(m, "author").value))
                    && forall i :: 0 <= i < |items| ==> r.value[first + i] == ToString(items[i]))
  {
    var head := if Get(m, "author").Some? then [ToString(Get(m, "author").value)] else [];
    match Get(m, "authors")
    case None => Success(head)
    case Some(value) =>
      if !value.List? then Failure(AuthorsWrongType)
      else
        var strings := Strings(value.items);
        if strings.None? then Failure(AuthorsImproperlyDefined) else Success(head + strings.value)
  }

  /** The fields of an ExtensionDescriptionFile; None stands for null. */
  datatype FileState = FileState(
    name: Option<string>,
    main: Option<string>,
    version: Option<string>,
    description: Option<string>,
    authors: Option<seq<string>>,
    priority: Option<string>,
    depend: seq<string>,
    softDepend: seq<string>,
    loadBefore: seq<string>)

  /** The field initialisers. */
  const Initial := FileState(None, None, None, None, None, None, [], [], [])

  /**
   * What a successful load guarantees: name, version, main, authors and
   * priority are set; the name is valid and has no spaces; main lies outside
   * the forbidden namespaces; no dependency entry has a space.
   */
  predicate Loaded(s: FileState)
  {
    && s.name.Some? && ValidName(s.name.value) && NoSpaces(s.name.value)
    && s.version.Some?
    && s.main.Some? && !ForbiddenMain(s.main.value)
    && s.authors.Some?
    && s.priority.Some?
    && (forall i :: 0 <= i < |s.depend| ==> NoSpaces(s.depend[i]))
    && (forall i :: 0 <= i < |s.softDepend| ==> NoSpaces(s.softDepend[i]))
    && (forall i :: 0 <= i < |s.loadBefore| ==> NoSpaces(s.loadBefore[i]))
  }

  /**
   * The first checks of loadMap, in order: a name that is present and
   * valid, returned with its spaces replaced; a version; a main class that is
   * present and outside the forbidden namespaces.
   */
  function Header(m: map<string, Value>): (r: Result<(string, string, string), DescriptionError>)
    ensures Get(m, "name").None? ==> r == Failure(NameNotDefined)
    ensures Get(m, "name").Some? && !ValidName(ToString(Get(m, "name").value)) ==>
              r == Failure(NameInvalid(ToString(Get(m, "name").value)))
    ensures (&& Get(m, "name").Some? && ValidName(ToString(Get(m, "name").value)) && Get(m, "version").Some?
             && Get(m, "main").Some? && ForbiddenMain(ToString(Get(m, "main").value)))
            ==> r == Failure(MainForbidden)
    ensures (Get(m, "name").Some? && ValidName(ToString(Get(m, "name").value)) && Get(m, "version").None?)
            ==> r == Failure(VersionNotDefined)
    ensures (&& Get(m, "name").Some? && ValidName(ToString(Get(m, "name").value)) && Get(m, "version").Some?
             && Get(m, "main").None?)
            ==> r == Failure(MainNotDefined)
    ensures (&& Get(m, "name").Some? && ValidName(ToString(Get(m, "name").value)) && Get(m, "version").Some?
             && Get(m, "main").Some? && !ForbiddenMain(ToString(Get(m, "main").value)))
            ==> r.Success?
    ensures r.Success? ==>
              && Get(m, "name").Some? && Get(m, "version").Some? && Get(m, "main").Some?
              && r.value.0 == Underscored(ToString(Get(m, "name").value))
              && ValidName(r.value.0) && NoSpaces(r.value.0)
              && r.value.1 == ToString(Get(m, "version").value)
              && r.value.2 == ToString(Get(m, "main").value) && !ForbiddenMain(r.value.2)
  {
    var nameValue := Get(m, "name");
    if nameValue.None? then Failure(NameNotDefined)
    else if !ValidName(ToString(nameValue.value)) then Failure(NameInvalid(ToString(nameValue.value)))
    else
      var versionValue := Get(m, "version");
      if versionValue.None? then Failure(VersionNotDefined)
      else
        var mainValue := Get(m, "main");
        if mainValue.None? then Failure(MainNotDefined)
        else if ForbiddenMain(ToString(mainValue.value)) then Failure(MainForbidden)
        else Success((Underscored(ToString(nameValue.value)), ToString(versionValue.value), ToString(mainValue.value)))
  }

  /** The depend, softdepend and loadbefore lists, read in that order. */
  function Lists(m: map<string, Value>): (r: Result<(seq<string>, seq<string>, seq<string>), DescriptionError>)
    ensures PluginNameList(m, "depend").Failure? ==> r == Failure(PluginNameList(m, "depend").error)
    ensures PluginNameList(m, "depend").Success? && PluginNameList(m, "softdepend").Failure? ==>
              r == Failure(PluginNameList(m, "softdepend").error)
    ensures (&& PluginNameList(m, "depend").Success? && PluginNameList(m, "softdepend").Success?
             && PluginNameList(m, "loadbefore").Failure?) ==> r == Failure(PluginNameList(m, "loadbefore").error)
    ensures r.Success? <==>
              PluginNameList(m, "depend").Success? && PluginNameList(m, "softdepend").Success?
              && PluginNameList(m, "loadbefore").Success?
    ensures r.Success? ==>
              r.value == (PluginNameList(m, "depend").value, PluginNameList(m, "softdepend").value,
                          PluginNameList(m, "loadbefore").value)
  {
    var depend :- PluginNameList(m, "depend");
    var softDepend :- PluginNameList(m, "softdepend");
    var loadBefore :- PluginNameList(m, "loadbefore");
    Success((depend, softDepend, loadBefore))
  }

  /**
   * loadMap on a fresh file: the header checks, the three dependency lists,
   * description, authors and priority, in loadMap's order, the first
   * failing check deciding the error. A missing name, version, main or
   * priority is an error; so is an invalid name and a main class in a
   * forbidden namespace. A success is Loaded.
   */
  function Parse(m: map<string, Value>): (r: Result<FileState, DescriptionError>)
    ensures Header(m).Failure? ==> r == Failure(Header(m).error)
    ensures Header(m).Success? && Lists(m).Failure? ==> r == Failure(Lists(m).error)
    ensures Header(m).Success? && Lists(m).Success? && AuthorList(m).Failure? ==> r == Failure(AuthorList(m).error)
    ensures (&& Header(m).Success? && Lists(m).Success? && AuthorList(m).Success?
             && Get(m, "priority").None?) ==> r == Failure(PriorityNotDefined)
    ensures Get(m, "priority").None? ==> r.Failure?
    ensures (&& Header(m).Success? && Lists(m).Success? && AuthorList(m).Success?
             && Get(m, "priority").Some?) ==> r.Success?
    ensures r.Success? ==>
              && Loaded(r.value)
              && Header(m) == Success((r.value.name.value, r.value.version.value, r.value.main.value))
              && Lists(m) == Success((r.value.depend, r.value.softDepend, r.value.loadBefore))
              && AuthorList(m) == Success(r.value.authors.value)
              && (r.value.description.Some? <==> Get(m, "description").Some?)
              && (Get(m, "description").Some? ==> r.value.description == Some(ToString(Get(m, "description").value)))
              && Get(m, "priority").Some?
              && r.value.priority == Some(ToString(Get(m, "priority").value))
  {
    var header :- Header(m);
    var lists :- Lists(m);
    var description := if Get(m, "description").Some? then Some(ToString(Get(m, "description").value)) else None;
    var authors :- AuthorList(m);
    var priorityValue := Get(m, "priority");
    if priorityValue.None? then Failure(PriorityNotDefined)
    else
      Success(FileState(Some(header.0), Some(header.2), Some(header.1), description, Some(authors),
                        Some(ToString(priorityValue.value)), lists.0, lists.1, lists.2))
  }

  /** A nullable string as the value saveMap puts. */
  function TextValue(s: Option<string>): Value
  {
    if s.Some? then Str(s.value) else Null
  }

  /** A list of strings as the value saveMap puts. */
  function ListValue(xs: seq<string>): (v: Value)
    ensures v.List? && |v.items| == |xs|
    ensures forall i :: 0 <= i < |xs| ==> v.items[i] == Str(xs[i])
  {
    List(seq(|xs|, i requires 0 <= i < |xs| => Str(xs[i])))
  }

  /**
   * saveMap: None when it throws, which is when authors is null. Otherwise
   * name, main, version, priority and the two dependency lists are always
   * written; description only when set; author for exactly one author,
   * authors for more than one, neither for none; loadbefore never.
   */
  function SaveLayout(s: FileState): (r: Option<map<string, Value>>)
    ensures r.None? <==> s.authors.None?
    ensures r.Some? ==>
              var saved := r.value;
              && {"name", "main", "version", "priority", "depend", "softdepend"} <= saved.Keys
              && ("description" in saved <==> s.description.Some?)
              && ("author" in saved <==> |s.authors.value| == 1)
              && ("authors" in saved <==> |s.authors.value| > 1)
              && "loadbefore" !in saved
  {
    if s.authors.None? then None
    else
      var base := map["name" := TextValue(s.name), "main" := TextValue(s.main), "version" := TextValue(s.version),
                      "priority" := TextValue(s.priority), "depend" := ListValue(s.depend), "softdepend" := ListValue(s.softDepend)];
      var described := if s.description.Some? then base["description" := Str(s.description.value)] else base;
      var authors := s.authors.value;
      if |authors| == 1 then Some(described["author" := Str(authors[0])])
      else if |authors| > 1 then Some(described["authors" := ListValue(authors)])
      else Some(described)
  }

  /** Reading back the strings of a saved list gives the list. */
  lemma StringsOfListValue(xs: seq<string>)
    ensures Strings(ListValue(xs).items) == Some(xs)
  {
    var r := Strings(ListValue(xs).items);
    assert r.value == xs;
  }

  /** Reading back a saved dependency list whose entries have no spaces gives the list. */
  lemma PluginNameListOfSaved(m: map<string, Value>, key: string, xs: seq<string>)
    requires key in m && m[key] == ListValue(xs)
    requires forall i :: 0 <= i < |xs| ==> NoSpaces(xs[i])
    ensures PluginNameList(m, key) == Success(xs)
  {
    StringsOfListValue(xs);
    assert Get(m, key) == Some(ListValue(xs));
    var r := PluginNameList(m, key);
    assert r.Success? && |r.value| == |xs|;
    forall i | 0 <= i < |xs| ensures r.value[i] == xs[i] {
      UnderscoredFixes(xs[i]);
    }
    assert r.value == xs;
  }

  /** Reading back saved authors gives the authors. */
  lemma AuthorListOfSaved(s: FileState)
    requires s.authors.Some?
    ensures AuthorList(SaveLayout(s).value) == Success(s.authors.value)
  {
    var saved, authors := SaveLayout(s).value, s.authors.value;
    if |authors| > 1 {
      StringsOfListValue(authors);
      assert Get(saved, "author").None? && Get(saved, "authors") == Some(ListValue(authors));
      assert AuthorList(saved) == Success([] + authors);
      assert [] + authors == authors;
    } else if |authors| == 1 {
      assert Get(saved, "author") == Some(Str(authors[0])) && Get(saved, "authors").None?;
      assert authors == [authors[0]];
    } else {
      assert Get(saved, "author").None? && Get(saved, "authors").None?;
    }
  }

  /** Reading back a saved header gives the saved name, version and main class. */
  lemma HeaderOfSaved(s: FileState)
    requires Loaded(s)
    ensures Header(SaveLayout(s).value) == Success((s.name.value, s.version.value, s.main.value))
  {
    var saved := SaveLayout(s).value;
    UnderscoredFixes(s.name.value);
    assert Get(saved, "name") == Some(Str(s.name.value));
    assert Get(saved, "version") == Some(Str(s.version.value));
    assert Get(saved, "main") == Some(Str(s.main.value));
  }

  /** Reading back the saved lists gives depend and softdepend, and no loadbefore. */
  lemma ListsOfSaved(s: FileState)
    requires Loaded(s)
    ensures Lists(SaveLayout(s).value) == Success((s.depend, s.softDepend, []))
  {
    var saved := SaveLayout(s).value;
    PluginNameListOfSaved(saved, "depend", s.depend);
    PluginNameListOfSaved(saved, "softdepend", s.softDepend);
    assert Get(saved, "loadbefore").None?;
  }

  /**
   * Saving and loading again gives back the saved state, except that the
   * loadbefore list, which saveMap never writes, comes back empty.
   */
  lemma {:induction false} SaveThenLoad(s: FileState)
    requires Loaded(s)
    ensures SaveLayout(s).Some?
    ensures Parse(SaveLayout(s).value) == Success(s.(loadBefore := []))
  {
    var saved := SaveLayout(s).value;
    HeaderOfSaved(s);
    ListsOfSaved(s);
    AuthorListOfSaved(s);
    assert Get(saved, "priority") == Some(Str(s.priority.value));
    if s.description.Some? {
      assert Get(saved, "description") == Some(Str(s.description.value));
    }
  }

  /** Any description that loads survives a save and a second load, loadbefore aside. */
  lemma LoadSaveLoad(m: map<string, Value>)
    requires Parse(m).Success?
    ensures SaveLayout(Parse(m).value).Some?
    ensures Parse(SaveLayout(Parse(m).value).value) == Success(Parse(m).value.(loadBefore := []))
  {
    SaveThenLoad(Parse(m).value);
  }

  /** getFullName: name + " v" + version, with a null field printing as "null". */
  function FullNameOf(name: Option<string>, version: Option<string>): (r: string)
    ensures name.Some? ==> |r| == |name.value| + 2 + |NullText(version)|
    ensures name.Some? ==> r[..|name.value|] == name.value && r[|name.value|..] == " v" + NullText(version)
  {
    NullText(name) + " v" + NullText(version)
  }

  /** The character right after the name is the space of " v". */
  lemma FullNameSeparator(name: string, version: Option<string>)
    ensures FullNameOf(Some(name), version)[|name|] == ' '
  {
    assert FullNameOf(Some(name), version)[|name|..][0] == ' ';
  }

  /**
   * Names without spaces make full names unambiguous: the first space of a
   * full name ends the name, so the full name determines name and version.
   */
  lemma {:induction false} FullNameInjective(name1: string, version1: Option<string>, name2: string, version2: Option<string>)
    requires NoSpaces(name1) && NoSpaces(name2)
    requires FullNameOf(Some(name1), version1) == FullNameOf(Some(name2), version2)
    ensures name1 == name2 && NullText(version1) == NullText(version2)
  {
    var full := FullNameOf(Some(name1), version1);
    if |name1| < |name2| {
      // full[|name1|] is both the space of " v" and a character of name2
      FullNameSeparator(name1, version1);
      assert false;
    } else if |name2| < |name1| {
      FullNameSeparator(name2, version2);
      assert false;
    }
    assert name1 == full[..|name1|] == name2;
    assert " v" + NullText(version1) == full[|name1|..] == " v" + NullText(version2);
    assert NullText(version1) == (" v" + NullText(version1))[2..];
  }

  class ExtensionDescriptionFile {
    var name: Option<string>
    var main: Option<string>
    var version: Option<string>
    var description: Option<string>
    var authors: Option<seq<string>>
    var priority: Option<string>
    var depend: seq<string>
    var softDepend: seq<string>
    var loadBefore: seq<string>

    function State(): FileState
      reads this
    {
      FileState(name, main, version, description, authors, priority, depend, softDepend, loadBefore)
    }

    /** The field initialisers alone: the state the stream and reader constructors run loadMap on. */
    constructor Blank()
      ensures State() == Initial
    {
      name, main, version, description, authors, priority := None, None, None, None, None, None;
      depend, softDepend, loadBefore := [], [], [];
    }

    /**
     * The 3-argument constructor: the name with spaces replaced, version and
     * main as given (either may be null, as Java only assigns them), every
     * other field as initialised (authors stay null).
     */
    constructor (extensionName: string, extensionVersion: Option<string>, mainClass: Option<string>)
      ensures State() == Initial.(name := Some(Underscored(extensionName)), version := extensionVersion, main := mainClass)
      ensures NoSpaces(name.value)
    {
      name := Some(Underscored(extensionName));
      version := extensionVersion;
      main := mainClass;
      description, authors, priority := None, None, None;
      depend, softDepend, loadBefore := [], [], [];
    }

    /** The stream and reader constructors after YAML parsing: loadMap on a fresh file. */
    static method Load(m: map<string, Value>) returns (r: Result<ExtensionDescriptionFile, DescriptionError>)
      ensures r.Success? <==> Parse(m).Success?
      ensures r.Failure? ==> r.error == Parse(m).error
      ensures r.Success? ==> fresh(r.value) && r.value.State() == Parse(m).value
    {
      var file := new ExtensionDescriptionFile.Blank();
      var loaded := file.LoadMap(m);
      if loaded.Failure? {
        return Failure(loaded.error);
      }
      return Success(file);
    }

    /**
     * makePluginNameList, building the list entry by entry; it computes
     * PluginNameList.
     */
    static method MakePluginNameList(m: map<string, Value>, key: string) returns (r: Result<seq<string>, DescriptionError>)
      ensures r == PluginNameList(m, key)
    {
      var value := Get(m, key);
      if value.None? {
        return Success([]);
      }
      if !value.value.List? {
        return Failure(WrongType(key));
      }
      var items := value.value.items;
      var builder: seq<string> := [];
      for i := 0 to |items|
        invariant |builder| == i
        invariant forall j :: 0 <= j < i ==> items[j] != Null && builder[j] == Underscored(ToString(items[j]))
      {
        if items[i] == Null {
          return Failure(InvalidFormat(key));
        }
        builder := builder + [Underscored(ToString(items[i]))];
      }
      ghost var expected := PluginNameList(m, key);
      assert expected.Success? && |expected.value| == |builder|;
      assert builder == expected.value;
      return Success(builder);
    }

    /**
     * loadMap: the fields are assigned check by check; a failing check
     * returns its error (the constructor then throws, so the half-loaded
     * fields are never seen). On success the fields are Parse's result,
     * except that an absent description leaves the field as it was.
     */
    method LoadMap(m: map<string, Value>) returns (r: Result<(), DescriptionError>)
      modifies this
      ensures r.Success? <==> Parse(m).Success?
      ensures r.Failure? ==> r.error == Parse(m).error
      ensures r.Success? ==>
                State() == Parse(m).value.(description := if Get(m, "description").Some? then Parse(m).value.description
                                                          else old(description))
    {
      r := LoadHeader(m);
      if r.Failure? {
        return;
      }
      r := LoadLists(m);
      if r.Failure? {
        return;
      }
      var descriptionValue := Get(m, "description");
      if descriptionValue.Some? {
        description := Some(ToString(descriptionValue.value));
      }
      r := LoadAuthors(m);
      if r.Failure? {
        return;
      }
      var priorityValue := Get(m, "priority");
      if priorityValue.None? {
        return Failure(PriorityNotDefined);
      }
      priority := Some(ToString(priorityValue.value));
    }

    /** The name, version and main part of loadMap; it computes Header. */
    method LoadHeader(m: map<string, Value>) returns (r: Result<(), DescriptionError>)
      modifies this`name, this`version, this`main
      ensures r.Success? <==> Header(m).Success?
      ensures r.Failure? ==> r.error == Header(m).error
      ensures r.Success? ==> name.Some? && version.Some? && main.Some? &&
                             Header(m).value == (name.value, version.value, main.value)
    {
      var nameValue := Get(m, "name");
      if nameValue.None? {
        return Failure(NameNotDefined);
      }
      name := Some(ToString(nameValue.value));
      if !ValidName(name.value) {
        return Failure(NameInvalid(name.value));
      }
      name := Some(Underscored(name.value));

      var versionValue := Get(m, "version");
      if versionValue.None? {
        return Failure(VersionNotDefined);
      }
      version := Some(ToString(versionValue.value));

      var mainValue := Get(m, "main");
      if mainValue.None? {
        return Failure(MainNotDefined);
      }
      main := Some(ToString(mainValue.value));
      if ForbiddenMain(main.value) {
        return Failure(MainForbidden);
      }
      return Success(());
    }

    /** The depend, softdepend and loadbefore part of loadMap; it computes Lists. */
    method LoadLists(m: map<string, Value>) returns (r: Result<(), DescriptionError>)
      modifies this`depend, this`softDepend, this`loadBefore
      ensures r.Success? <==> Lists(m).Success?
      ensures r.Failure? ==> r.error == Lists(m).error
      ensures r.Success? ==> Lists(m).value == (depend, softDepend, loadBefore)
    {
      var dependList := MakePluginNameList(m, "depend");
      if dependList.Failure? {
        return Failure(dependList.error);
      }
      depend := dependList.value;
      var softDependList := MakePluginNameList(m, "softdepend");
      if softDependList.Failure? {
        return Failure(softDependList.error);
      }
      softDepend := softDependList.value;
      var loadBeforeList := MakePluginNameList(m, "loadbefore");
      if loadBeforeList.Failure? {
        return Failure(loadBeforeList.error);
      }
      loadBefore := loadBeforeList.value;
      return Success(());
    }

    /**
     * The authors part of loadMap, merging author and authors entry by
     * entry; it computes AuthorList.
     */
    method LoadAuthors(m: map<string, Value>) returns (r: Result<(), DescriptionError>)
      modifies this`authors
      ensures r.Success? <==> AuthorList(m).Success?
      ensures r.Failure? ==> r.error == AuthorList(m).error
      ensures r.Success? ==> authors == Some(AuthorList(m).value)
    {
      var authorsValue, authorValue := Get(m, "authors"), Get(m, "author");
      if authorsValue.Some? {
        var head: seq<string> := [];
        if authorValue.Some? {
          head := [ToString(authorValue.value)];
        }
        if !authorsValue.value.List? {
          return Failure(AuthorsWrongType);
        }
        var collected := AppendStrings(head, authorsValue.value.items);
        if collected.None? {
          return Failure(AuthorsImproperlyDefined);
        }
        authors := Some(collected.value);
      } else if authorValue.Some? {
        authors := Some([ToString(authorValue.value)]);
      } else {
        authors := Some([]);
      }
      return Success(());
    }

    /**
     * The loop over the authors list: the builder's entries followed by each
     * element's string, in order, or None at the first null element.
     */
    static method AppendStrings(head: seq<string>, items: seq<Value>) returns (r: Option<seq<string>>)
      ensures r.None? <==> Strings(items).None?
      ensures r.Some? ==> r.value == head + Strings(items).value
    {
      var builder := head;
      for i := 0 to |items|
        invariant |builder| == |head| + i
        invariant builder[..|head|] == head
        invariant forall j :: 0 <= j < i ==> items[j] != Null && builder[|head| + j] == ToString(items[j])
      {
        if items[i] == Null {
          return None;
        }
        builder := builder + [ToString(items[i])];
      }
      ghost var strings := Strings(items).value;
      assert builder == head + strings;
      return Some(builder);
    }

    /**
     * saveMap, putting entry by entry: it computes SaveLayout, so it throws
     * (None) exactly when authors is null.
     */
    method SaveMap() returns (saved: Option<map<string, Value>>)
      ensures saved == SaveLayout(State())
    {
      var m: map<string, Value> := map[];
      m := m["name" := TextValue(name)];
      m := m["main" := TextValue(main)];
      m := m["version" := TextValue(version)];
      m := m["priority" := TextValue(priority)];
      // depend and softDepend are never null
      m := m["depend" := ListValue(depend)];
      m := m["softdepend" := ListValue(softDepend)];
      if description.Some? {
        m := m["description" := Str(description.value)];
      }
      if authors.None? {
        // authors.size() on null
        return None;
      }
      if |authors.value| == 1 {
        m := m["author" := Str(authors.value[0])];
      } else if |authors.value| > 1 {
        m := m["authors" := ListValue(authors.value)];
      }
      return Some(m);
    }

    /** getFullName */
    function FullName(): string
      reads this
    {
      FullNameOf(name, version)
    }
  }

  /**
   * A file made by the 3-argument constructor cannot be saved: its authors
   * are still null when saveMap asks for their number.
   */
  method ConstructedCannotBeSaved(extensionName: string, extensionVersion: Option<string>, mainClass: Option<string>)
    returns (saved: Option<map<string, Value>>)
    ensures saved.None?
  {
    var file := new ExtensionDescriptionFile(extensionName, extensionVersion, mainClass);
    saved := file.SaveMap();
  }

  /**
   * The full name of a file made by the 3-argument constructor: the name
   * with its spaces replaced, " v", then the version, printed as "null"
   * when the constructor was given none.
   */
  method ConstructedFullName(extensionName: string, extensionVersion: Option<string>, mainClass: Option<string>)
    returns (fullName: string)
    ensures fullName == Underscored(extensionName) + " v" + NullText(extensionVersion)
    ensures extensionVersion.None? ==> fullName[|extensionName|..] == " vnull"
  {
    var file := new ExtensionDescriptionFile(extensionName, extensionVersion, mainClass);
    fullName := file.FullName();
  }
}
