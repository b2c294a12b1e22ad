/** The parts of std::filesystem::path that the metadata reader relies on. */
module StoragePaths {

  /** A parsed path: root directory, names between separators, and whether a separator ends it. */
  datatype FsPath = FsPath(rooted: bool, names: seq<string>, trailing: bool)

  const EMPTY := FsPath(false, [], false)
  const DOT := FsPath(false, ["."], false)

  /** Length of the text up to and including its last separator. */
  function LastSlash(text: string): (k: nat)
    ensures k <= |text|
    ensures forall i :: k <= i < |text| ==> text[i] != '/'
    ensures k > 0 ==> text[k - 1] == '/'
  {
    if |text| == 0 then 0
    else if text[|text| - 1] == '/' then |text| else LastSlash(text[..|text| - 1])
  }

  /** The names of a path, repeated separators taken as one. */
  function Names(text: string): seq<string>
    decreases |text|
  {
    var k := LastSlash(text);
    var before := if k == 0 then [] else Names(text[..k - 1]);
    if k == |text| then before else before + [text[k..]]
  }

  function Parse(text: string): FsPath {
    var names := Names(text);
    FsPath(|text| > 0 && text[0] == '/', names, |names| > 0 && text[|text| - 1] == '/')
  }

  predicate EndsInSlash(text: string) { |text| > 0 && text[|text| - 1] == '/' }

  /** operator/ of two paths, printed, for a right side that is a single name. */
  function JoinPath(directory: string, name: string): string {
    if |directory| == 0 || EndsInSlash(directory) then directory + name else directory + "/" + name
  }

  // ----- lexically_normal

  /** Adds one name to names already normal: dots vanish, a dot-dot takes the name before it. */
  function Reduce(stack: seq<string>, name: string, rooted: bool): seq<string> {
    if name == "." then stack
    else if name != ".." then stack + [name]
    else if |stack| > 0 && stack[|stack| - 1] != ".." then stack[..|stack| - 1]
    else if rooted then stack
    else stack + [name]
  }

  function Reduced(names: seq<string>, rooted: bool): seq<string> {
    if |names| == 0 then [] else Reduce(Reduced(names[..|names| - 1], rooted), names[|names| - 1], rooted)
  }

  function Normal(p: FsPath): FsPath {
    var names := Reduced(p.names, p.rooted);
    if p == EMPTY then p
    else if |names| == 0 then (if p.rooted then FsPath(true, [], false) else DOT)
    else
      var cut := |p.names| > 0 && (p.names[|p.names| - 1] == "." || p.names[|p.names| - 1] == "..");
      FsPath(p.rooted, names, names[|names| - 1] != ".." && (p.trailing || cut))
  }

  function FileName(p: FsPath): string {
    if p.trailing || |p.names| == 0 then "" else p.names[|p.names| - 1]
  }

  function Parent(p: FsPath): FsPath {
    if p.trailing then p.(trailing := false)
    else if |p.names| == 0 then p
    else FsPath(p.rooted, p.names[..|p.names| - 1], false)
  }

  /** A plain file name, as the server accepts them for upload. */
  predicate PlainName(name: string) {
    0 < |name| <= 255 && name != "." && name != ".." && '/' !in name
  }

  lemma {:induction false} LastSlashBefore(text: string, name: string)
    requires '/' !in name && |text| > 0 && text[|text| - 1] == '/'
    ensures LastSlash(text + name) == |text|
  {
    if |name| == 0 {
      assert text + name == text;
    } else {
      LastSlashBefore(text, name[..|name| - 1]);
      assert (text + name)[..|text + name| - 1] == text + name[..|name| - 1];
    }
  }

  lemma NamesSnoc(front: string, name: string)
    requires '/' !in name
    ensures Names(front + "/" + name) == if name == "" then Names(front) else Names(front) + [name]
  {
    var slashed := front + "/";
    LastSlashBefore(slashed, name);
    assert slashed[..|slashed| - 1] == front;
    assert (slashed + name)[..|slashed| - 1] == front;
    assert (slashed + name)[|slashed|..] == name;
  }

  lemma NamesOfSlashed(slashed: string, name: string)
    requires EndsInSlash(slashed) && '/' !in name && name != ""
    ensures Names(slashed + name) == Names(slashed) + [name]
  {
    LastSlashBefore(slashed, name);
    assert (slashed + name)[..|slashed| - 1] == slashed[..|slashed| - 1];
    assert (slashed + name)[|slashed|..] == name;
  }

  lemma NamesOfJoined(directory: string, name: string)
    requires |directory| > 0 && PlainName(name)
    ensures Names(JoinPath(directory, name)) == Names(directory) + [name]
  {
    if EndsInSlash(directory) {
      NamesOfSlashed(directory, name);
    } else {
      NamesSnoc(directory, name);
    }
  }

  lemma JoinedEnds(directory: string, name: string)
    requires |directory| > 0 && PlainName(name)
    ensures var joined := JoinPath(directory, name);
            |joined| > 0 && joined[0] == directory[0] && joined[|joined| - 1] != '/'
  {
    assert JoinPath(directory, name)[|JoinPath(directory, name)| - 1] == name[|name| - 1];
  }

  lemma JoinedNames(directory: string, name: string)
    requires |directory| > 0 && PlainName(name)
    ensures Parse(JoinPath(directory, name))
         == FsPath(directory[0] == '/', Names(directory) + [name], false)
  {
    NamesOfJoined(directory, name);
    JoinedEnds(directory, name);
  }

  /** The normal form of a file stored under a directory. */
  lemma NormalOfJoined(directory: string, name: string)
    requires |directory| > 0 && PlainName(name)
    ensures Normal(Parse(JoinPath(directory, name)))
         == FsPath(directory[0] == '/', Reduced(Names(directory), directory[0] == '/') + [name], false)
  {
    JoinedNames(directory, name);
    var names := Names(directory) + [name];
    assert names[..|names| - 1] == Names(directory);
  }

  /** The configured directories under which the server finds its own files again: their normal
      form neither ends in a separator nor is the dot. */
  predicate UsableDirectory(directory: string) {
    |directory| > 0 && !Normal(Parse(directory)).trailing && Normal(Parse(directory)) != DOT
  }

  lemma {:induction false} OnlySlashes(text: string)
    requires |text| > 0 && Names(text) == []
    ensures text[0] == '/'
    decreases |text|
  {
    var k := LastSlash(text);
    if 1 < k {
      assert text[..k - 1][0] == text[0];
      OnlySlashes(text[..k - 1]);
    }
  }

  /** Names in normal form: no dot, and a dot-dot only in front, where nothing is left to take back;
      below the root there is none. */
  ghost predicate InNormalForm(names: seq<string>, rooted: bool) {
    && "." !in names
    && (forall i, j :: 0 <= i < j < |names| && names[j] == ".." ==> names[i] == "..")
    && (rooted ==> ".." !in names)
  }

  lemma {:induction false} ReducedIsNormal(names: seq<string>, rooted: bool)
    ensures InNormalForm(Reduced(names, rooted), rooted)
  {
    if |names| > 0 {
      ReducedIsNormal(names[..|names| - 1], rooted);
    }
  }

  /** Names in normal form stay as they are. */
  lemma {:induction false} NormalFormStays(names: seq<string>, rooted: bool)
    requires InNormalForm(names, rooted)
    ensures Reduced(names, rooted) == names
  {
    if |names| > 0 {
      var n := |names| - 1;
      NormalFormStays(names[..n], rooted);
      assert names == names[..n] + [names[n]];
      assert names[n] == ".." ==> names[n] in names;
      if names[n] == ".." && n > 0 {
        assert names[n - 1] == "..";
      }
    }
  }

  /** A name and a dot-dot after it cancel out, and a dot is nothing. */
  lemma DotsVanish(front: seq<string>, name: string, rooted: bool)
    requires name != "." && name != ".."
    ensures Reduced(front + [name] + [".."], rooted) == Reduced(front, rooted)
    ensures Reduced(front + ["."], rooted) == Reduced(front, rooted)
    ensures Reduced(front + [name], rooted) == Reduced(front, rooted) + [name]
  {
    assert (front + [name] + [".."])[..|front| + 1] == front + [name];
    assert (front + [name])[..|front|] == front && (front + ["."])[..|front|] == front;
    var stack := Reduced(front, rooted);
    assert (stack + [name])[..|stack|] == stack;
  }

  /** The parent of a stored file, compared with the directory it was stored in: equal exactly
      for usable directories. */
  lemma ParentIsDirectory(directory: string, name: string)
    requires |directory| > 0 && PlainName(name)
    ensures var stored := Normal(Parse(JoinPath(directory, name)));
            && FileName(stored) == name
            && (Parent(stored) == Normal(Parse(directory)) <==> UsableDirectory(directory))
  {
    NormalOfJoined(directory, name);
    var rooted := directory[0] == '/';
    var names := Reduced(Names(directory), rooted);
    ReducedIsNormal(Names(directory), rooted);
    assert (names + [name])[..|names|] == names;
    if |Names(directory)| == 0 && !rooted {
      OnlySlashes(directory);
    }
  }

  /** The parent of a stored file, normalised, is the directory normalised. */
  lemma ParentNormalises(directory: string, name: string)
    requires PlainName(name) && UsableDirectory(directory)
    ensures Normal(Parent(Parse(JoinPath(directory, name)))) == Normal(Parse(directory))
  {
    JoinedNames(directory, name);
    assert (Names(directory) + [name])[..|Names(directory)|] == Names(directory);
    assert Parent(Parse(JoinPath(directory, name))) == FsPath(directory[0] == '/', Names(directory), false);
  }

  /** A separator at the end, as in the shipped configuration, makes a directory unusable unless
      it is the root directory or climbs out with a dot-dot. */
  lemma TrailingSlashIsUnusable(directory: string)
    requires |directory| > 0 && directory[|directory| - 1] == '/'
    requires |Reduced(Names(directory), directory[0] == '/')| > 0
    requires var names := Reduced(Names(directory), directory[0] == '/'); names[|names| - 1] != ".."
    ensures !UsableDirectory(directory)
  {
  }
}
