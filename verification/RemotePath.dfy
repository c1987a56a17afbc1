/** Textual remote paths: normalisation and resolution in the application layer
    (crates/handshaker-application/src/runtime.rs) and resolution in the command line
    (crates/handshaker-cli/src/cli.rs). */
module RemotePath {
  import opened Separated

  /** One component on the stack: "" and "." do nothing, ".." pops, anything else is pushed. */
  function Step(stack: seq<string>, part: string): seq<string> {
    if part == "" || part == "." then stack
    else if part == ".." then if stack == [] then [] else stack[..|stack| - 1]
    else stack + [part]
  }

  function Walk(stack: seq<string>, parts: seq<string>): seq<string>
    decreases |parts|
  {
    if parts == [] then stack else Walk(Step(stack, parts[0]), parts[1..])
  }

  function Normalize(path: string): string {
    "/" + Join(Walk([], Split(path, '/')), '/')
  }

  function NonEmpty(parts: seq<string>): seq<string> {
    if parts == [] then []
    else (if parts[0] == "" then [] else [parts[0]]) + NonEmpty(parts[1..])
  }

  predicate Absolute(path: string) {
    path != "" && path[0] == '/'
  }

  /** The command line's resolution: its base is filtered, not walked. */
  function CliResolve(base: string, input: string): string {
    "/" + Join(Walk(if Absolute(input) then [] else NonEmpty(Split(base, '/')), Split(input, '/')), '/')
  }

  method NormalizeRemotePath(path: string) returns (result: string)
    ensures result == Normalize(path)
  {
    var parts: seq<string> := [];
    var components := Split(path, '/');
    for i := 0 to |components|
      invariant Walk([], components) == Walk(parts, components[i..])
    {
      assert components[i..][1..] == components[i + 1..];
      if components[i] == "" || components[i] == "." {
      } else if components[i] == ".." {
        if parts != [] {
          parts := parts[..|parts| - 1];
        }
      } else {
        parts := parts + [components[i]];
      }
    }
    result := "/" + Join(parts, '/');
  }

  method ResolveRemote(base: string, input: string) returns (result: string)
    ensures result == CliResolve(base, input)
  {
    var parts := if Absolute(input) then [] else NonEmpty(Split(base, '/'));
    ghost var start := parts;
    var components := Split(input, '/');
    for i := 0 to |components|
      invariant Walk(start, components) == Walk(parts, components[i..])
    {
      assert components[i..][1..] == components[i + 1..];
      if components[i] == "" || components[i] == "." {
      } else if components[i] == ".." {
        if parts != [] {
          parts := parts[..|parts| - 1];
        }
      } else {
        parts := parts + [components[i]];
      }
    }
    result := "/" + Join(parts, '/');
  }

  // ---- splitting, joining, walking ----

  lemma {:induction false} WalkConcat(stack: seq<string>, a: seq<string>, b: seq<string>)
    ensures Walk(stack, a + b) == Walk(Walk(stack, a), b)
    decreases |a|
  {
    if a == [] {
      assert a + b == b;
    } else {
      assert (a + b)[1..] == a[1..] + b;
      WalkConcat(Step(stack, a[0]), a[1..], b);
    }
  }

  predicate CleanPart(part: string) {
    part != "" && part != "." && part != ".." && '/' !in part
  }

  ghost predicate Clean(parts: seq<string>) {
    forall i | 0 <= i < |parts| :: CleanPart(parts[i])
  }

  lemma {:induction false} WalkIsClean(stack: seq<string>, parts: seq<string>)
    requires Clean(stack) && Free(parts, '/')
    ensures Clean(Walk(stack, parts))
    decreases |parts|
  {
    if parts != [] {
      WalkIsClean(Step(stack, parts[0]), parts[1..]);
    }
  }

  lemma {:induction false} WalkCleanAppends(stack: seq<string>, parts: seq<string>)
    requires Clean(parts)
    ensures Walk(stack, parts) == stack + parts
    decreases |parts|
  {
    if parts == [] {
      assert stack + parts == stack;
    } else {
      WalkCleanAppends(Step(stack, parts[0]), parts[1..]);
      assert stack + parts == (stack + [parts[0]]) + parts[1..];
    }
  }

  /** The walked components of a path. */
  function Parts(path: string): seq<string> {
    Walk([], Split(path, '/'))
  }

  lemma PartsAreClean(path: string)
    ensures Clean(Parts(path))
  {
    WalkIsClean([], Split(path, '/'));
  }

  lemma {:induction false} RootedParts(parts: seq<string>)
    requires Clean(parts)
    ensures Parts("/" + Join(parts, '/')) == parts
    ensures Split("/" + Join(parts, '/'), '/') == if parts == [] then ["", ""] else [""] + parts
  {
    var s := "/" + Join(parts, '/');
    assert s[1..] == Join(parts, '/');
    if parts == [] {
      assert Split(s, '/') == ["", ""];
      assert Walk([], ["", ""]) == Walk([], [""]) == [];
    } else {
      SplitJoin(parts, '/');
      assert Split(s, '/')[1..] == parts;
      WalkCleanAppends([], parts);
    }
  }

  predicate Normal(path: string) {
    Normalize(path) == path
  }

  // ---- normalisation ----

  /** Normal forms start with a slash, hold no "", "." or ".." component after it (the root aside),
      and are their own normal form; and every path of that shape is a normal form. */
  lemma NormalizeIsNormal(path: string)
    ensures Normal(Normalize(path))
    ensures Absolute(Normalize(path))
    ensures Normal(path) <==> path == "/" || (Absolute(path) && Clean(Split(path, '/')[1..]))
  {
    PartsAreClean(path);
    RootedParts(Parts(path));
    if path == "/" {
      assert Split("/"[1..], '/') == [""];
      assert Split("/", '/') == ["", ""];
      assert Walk([], ["", ""]) == Walk([], [""]) == [];
    } else if Absolute(path) && Clean(Split(path, '/')[1..]) {
      JoinSplit(path, '/');
      var tail := Split(path, '/')[1..];
      assert Split(path, '/') == [""] + tail;
      JoinSplit(path[1..], '/');
      assert tail == Split(path[1..], '/');
      assert path == "/" + Join(tail, '/');
      RootedParts(tail);
    }
  }

  // ---- the two implementations ----

  ghost predicate NoDots(parts: seq<string>) {
    forall i | 0 <= i < |parts| :: parts[i] != "." && parts[i] != ".."
  }

  lemma StepIsFilter(stack: seq<string>, part: string, kept: seq<string>)
    requires part != "." && part != ".."
    ensures Step(stack, part) + kept == stack + ((if part == "" then [] else [part]) + kept)
  {
    if part == "" {
      assert [] + kept == kept;
    } else {
      assert stack + [part] + kept == stack + ([part] + kept);
    }
  }

  lemma {:induction false} WalkIsFilter(stack: seq<string>, parts: seq<string>)
    requires NoDots(parts)
    ensures Walk(stack, parts) == stack + NonEmpty(parts)
    decreases |parts|
  {
    if parts == [] {
      assert stack + [] == stack;
    } else {
      hide Step;
      WalkIsFilter(Step(stack, parts[0]), parts[1..]);
      StepIsFilter(stack, parts[0], NonEmpty(parts[1..]));
    }
  }

  lemma {:induction false} FilterKeeps(parts: seq<string>, i: nat)
    requires i < |parts| && parts[i] != "" && Free(parts, '/')
    ensures parts[i] in NonEmpty(parts) && Free(NonEmpty(parts), '/')
  {
    if i > 0 {
      FilterKeeps(parts[1..], i - 1);
    } else {
      FilterFree(parts[1..]);
    }
  }

  lemma {:induction false} FilterFree(parts: seq<string>)
    requires Free(parts, '/')
    ensures Free(NonEmpty(parts), '/')
  {
    if parts != [] {
      FilterFree(parts[1..]);
    }
  }

  lemma WalkBelow(base: string, input: string)
    ensures Parts(base + "/" + input) == Walk(Parts(base), Split(input, '/'))
  {
    SplitConcat(base, input, '/');
    WalkConcat([], Split(base, '/'), Split(input, '/'));
  }

  lemma CliAgreesOnPlainBase(base: string, input: string)
    requires !Absolute(input) && NoDots(Split(base, '/'))
    ensures CliResolve(base, input) == Normalize(base + "/" + input)
  {
    WalkIsFilter([], Split(base, '/'));
    assert [] + NonEmpty(Split(base, '/')) == NonEmpty(Split(base, '/'));
    WalkBelow(base, input);
  }

  lemma DotsShow(parts: seq<string>, clean: seq<string>, part: string)
    requires Free(parts, '/') && Clean(clean)
    requires part in parts && (part == "." || part == "..")
    ensures Join(parts, '/') != Join(clean, '/')
  {
    SplitJoin(parts, '/');
    if clean != [] {
      SplitJoin(clean, '/');
    }
  }

  lemma CliMissesDots(base: string)
    requires !NoDots(Split(base, '/'))
    ensures CliResolve(base, "") != Normalize(base + "/" + "")
  {
    var i :| 0 <= i < |Split(base, '/')| && (Split(base, '/')[i] == "." || Split(base, '/')[i] == "..");
    FilterKeeps(Split(base, '/'), i);
    var kept := NonEmpty(Split(base, '/'));
    var path := base + "/" + "";
    assert Walk(kept, [""]) == kept;
    PartsAreClean(path);
    DotsShow(kept, Parts(path), Split(base, '/')[i]);
    assert CliResolve(base, "")[1..] == Join(kept, '/');
    assert Normalize(path)[1..] == Join(Parts(path), '/');
  }

  /** Resolving on the command line is normalising an absolute input, and normalising
      base + "/" + input, for every relative input, exactly when no component of the base is "."
      or ".."; a normalised base has none. */
  lemma CliAgreesIff(base: string)
    ensures forall input | Absolute(input) :: CliResolve(base, input) == Normalize(input)
    ensures (forall input | !Absolute(input) :: CliResolve(base, input) == Normalize(base + "/" + input))
            <==> NoDots(Split(base, '/'))
    ensures Normal(base) ==> NoDots(Split(base, '/'))
  {
    if NoDots(Split(base, '/')) {
      forall input | !Absolute(input) ensures CliResolve(base, input) == Normalize(base + "/" + input) {
        CliAgreesOnPlainBase(base, input);
      }
    } else {
      CliMissesDots(base);
      assert !Absolute("");
    }
    if Normal(base) {
      PartsAreClean(base);
      RootedParts(Parts(base));
    }
  }

  // ---- what the components do ----

  /** One name below a directory. */
  function Child(dir: string, name: string): string {
    if dir == "/" then "/" + name else dir + "/" + name
  }

  lemma WalkPart(path: string, part: string)
    requires '/' !in part
    ensures Normalize(path + "/" + part) == "/" + Join(Step(Parts(path), part), '/')
    ensures Parts(path + "/" + part) == Step(Parts(path), part)
  {
    SplitWhole(part, '/');
    WalkBelow(path, part);
    assert Walk(Parts(path), [part]) == Walk(Step(Parts(path), part), []);
  }

  lemma JoinedChild(parts: seq<string>, name: string)
    requires parts == [] || parts[0] != ""
    ensures "/" + Join(parts + [name], '/') == Child("/" + Join(parts, '/'), name)
  {
    if parts == [] {
      assert parts + [name] == [name];
    } else {
      JoinBelow(parts, [name], '/');
      assert parts[0] != "" && Join(parts, '/')[0] == parts[0][0];
    }
  }

  lemma RootIsEmpty(parts: seq<string>)
    requires parts == [] || parts[0] != ""
    ensures "/" + Join(parts, '/') == "/" <==> parts == []
  {
    if parts != [] {
      assert Join(parts, '/')[0] == parts[0][0];
    }
  }

  /** A name goes down, "" and "." stay, ".." undoes the name before it, and above the root there is
      nothing: `Normalize` is determined by these laws, since every path is a first component followed
      by others. */
  lemma DownAndUp(path: string, name: string)
    requires CleanPart(name)
    ensures Normalize(path + "/" + name) == Child(Normalize(path), name)
    ensures Normalize(path + "/" + name + "/" + "..") == Normalize(path)
    ensures Normalize(path + "/" + ".") == Normalize(path) == Normalize(path + "/" + "")
    ensures Normalize("/" + path) == Normalize(path)
  {
    assert "" + "/" + path == "/" + path;
    WalkBelow("", path);
    assert Walk([], [""]) == Walk([], []) == [];
    assert Split("", '/') == [""];
    hide Split, Join, Walk, Child;
    PartsAreClean(path);
    WalkPart(path, name);
    JoinedChild(Parts(path), name);
    WalkPart(path + "/" + name, "..");
    assert (Parts(path) + [name])[..|Parts(path)|] == Parts(path);
    WalkPart(path, ".");
    WalkPart(path, "");
  }

  /** ".." at the root is dropped, whatever stands behind it; and a path whose normal form is the root
      is at the root. */
  lemma NothingAboveRoot(path: string, rest: string)
    requires Normalize(path) == "/"
    ensures Normalize(path + "/" + "..") == "/"
    ensures Normalize(path + "/" + ".." + "/" + rest) == Normalize("/" + rest)
    ensures Normalize("") == Normalize("/") == Normalize("..") == Normalize("/..") == "/"
  {
    PartsAreClean(path);
    RootIsEmpty(Parts(path));
    WalkPart(path, "..");
    WalkBelow(path + "/" + "..", rest);
    SplitWhole("..", '/');
    WalkBelow(path, "..");
    assert Walk([], [".."]) == Walk([], []);
    WalkBelow("", rest);
    assert "" + "/" + rest == "/" + rest && "" + "/" + ".." == "/..";
    assert Parts("") == Walk([], [""]) == Walk([], []);
    WalkPart("", "..");
    WalkPart("", "");
  }

  /** Where a path leads depends on where its beginning leads. */
  lemma SameDirectory(path: string, other: string, rest: string)
    requires Normalize(path) == Normalize(other)
    ensures Normalize(path + "/" + rest) == Normalize(other + "/" + rest)
  {
    PartsAreClean(path);
    PartsAreClean(other);
    RootedParts(Parts(path));
    RootedParts(Parts(other));
    WalkBelow(path, rest);
    WalkBelow(other, rest);
  }

  /** The stack on which the command line walks its input. */
  function CliStart(base: string, input: string): seq<string> {
    if Absolute(input) then [] else NonEmpty(Split(base, '/'))
  }

  lemma {:induction false} NonEmptyConcat(a: seq<string>, b: seq<string>)
    ensures NonEmpty(a + b) == NonEmpty(a) + NonEmpty(b)
  {
    if a == [] {
      assert a + b == b;
    } else {
      assert (a + b)[1..] == a[1..] + b;
      NonEmptyConcat(a[1..], b);
    }
  }

  ghost predicate NoEmpty(parts: seq<string>) {
    forall i | 0 <= i < |parts| :: parts[i] != ""
  }

  lemma {:induction false} NonEmptyIsFull(parts: seq<string>)
    ensures NoEmpty(NonEmpty(parts))
  {
    if parts != [] {
      NonEmptyIsFull(parts[1..]);
    }
  }

  lemma {:induction false} WalkStaysFull(stack: seq<string>, parts: seq<string>)
    requires NoEmpty(stack)
    ensures NoEmpty(Walk(stack, parts))
    decreases |parts|
  {
    if parts != [] {
      WalkStaysFull(Step(stack, parts[0]), parts[1..]);
    }
  }

  lemma CliPart(base: string, input: string, part: string)
    requires '/' !in part && input != ""
    ensures var there := Walk(CliStart(base, input), Split(input, '/'));
            && NoEmpty(there) && CliResolve(base, input) == "/" + Join(there, '/')
            && CliResolve(base, input + "/" + part) == "/" + Join(Step(there, part), '/')
            && Walk(CliStart(base, input), Split(input + "/" + part, '/')) == Step(there, part)
  {
    SplitConcat(input, part, '/');
    SplitWhole(part, '/');
    WalkConcat(CliStart(base, input), Split(input, '/'), [part]);
    NonEmptyIsFull(Split(base, '/'));
    WalkStaysFull(CliStart(base, input), Split(input, '/'));
  }

  /** The same laws for the input of the command line; an empty input is no exception in front of the
      first component, but with a slash behind it it would be an absolute one. */
  lemma CliDownAndUp(base: string, input: string, name: string)
    requires CleanPart(name) && input != ""
    ensures CliResolve(base, input + "/" + name) == Child(CliResolve(base, input), name)
    ensures CliResolve(base, input + "/" + name + "/" + "..") == CliResolve(base, input)
    ensures CliResolve(base, input + "/" + ".") == CliResolve(base, input) == CliResolve(base, input + "/" + "")
    ensures CliResolve(base, input) == "/" ==> CliResolve(base, input + "/" + "..") == "/"
  {
    var there := Walk(CliStart(base, input), Split(input, '/'));
    CliPart(base, input, name);
    JoinedChild(there, name);
    CliPart(base, input + "/" + name, "..");
    assert (there + [name])[..|there|] == there;
    CliPart(base, input, ".");
    CliPart(base, input, "");
    CliPart(base, input, "..");
    RootIsEmpty(there);
  }

  lemma CliOnePart(base: string, part: string)
    requires '/' !in part
    ensures CliResolve(base, part) == "/" + Join(Step(NonEmpty(Split(base, '/')), part), '/')
  {
    SplitWhole(part, '/');
    var kept := NonEmpty(Split(base, '/'));
    assert Walk(kept, [part]) == Walk(Step(kept, part), []);
  }

  lemma BaseAndLast(base: string, last: string)
    requires '/' !in last
    ensures NonEmpty(Split(base + "/" + last, '/')) ==
              NonEmpty(Split(base, '/')) + if last == "" then [] else [last]
  {
    SplitConcat(base, last, '/');
    SplitWhole(last, '/');
    NonEmptyConcat(Split(base, '/'), [last]);
    assert NonEmpty([last]) == (if last == "" then [] else [last]) + [];
  }

  /** And for one component against a base: ".." takes off the base's last name, whatever that name
      is; from an empty base there is nothing to take off. */
  lemma CliLeavesBase(base: string, last: string, name: string)
    requires last != "" && '/' !in last && CleanPart(name)
    ensures CliResolve(base + "/" + last, "") == Child(CliResolve(base, ""), last)
    ensures CliResolve(base + "/" + last, "..") == CliResolve(base, "") == CliResolve(base, ".")
    ensures CliResolve(base + "/", "") == CliResolve(base, "")
    ensures CliResolve(base, name) == Child(CliResolve(base, ""), name)
    ensures CliResolve("", "..") == CliResolve("", "") == "/"
  {
    CliEmptyBase();
    hide Split, NonEmpty, CliResolve, Child, Join, Step;
    CliLeaves(base, last, name);
    assert base + "/" + "" == base + "/";
    BaseAndLast(base, "");
    assert NonEmpty(Split(base, '/')) + [] == NonEmpty(Split(base, '/'));
    CliOnePart(base, "");
    CliOnePart(base + "/", "");
  }

  lemma CliEmptyBase()
    ensures CliResolve("", "..") == CliResolve("", "") == "/"
  {
    assert Split("", '/') == [""] && NonEmpty([""]) == [];
    CliOnePart("", "");
    CliOnePart("", "..");
  }

  lemma CliLeaves(base: string, last: string, name: string)
    requires last != "" && '/' !in last && CleanPart(name)
    ensures CliResolve(base + "/" + last, "") == Child(CliResolve(base, ""), last)
    ensures CliResolve(base + "/" + last, "..") == CliResolve(base, "") == CliResolve(base, ".")
    ensures CliResolve(base, name) == Child(CliResolve(base, ""), name)
  {
    hide Split, NonEmpty, CliResolve, Child, Join;
    BaseAndLast(base, last);
    var kept := NonEmpty(Split(base, '/'));
    NonEmptyIsFull(Split(base, '/'));
    JoinedChild(kept, last);
    JoinedChild(kept, name);
    assert (kept + [last])[..|kept|] == kept;
    CliOnePart(base + "/" + last, "");
    CliOnePart(base + "/" + last, "..");
    CliOnePart(base, "");
    CliOnePart(base, ".");
    CliOnePart(base, name);
  }

  // ---- resolving against the device root ----

  /** Unicode white space, as `str::trim` removes it. */
  predicate White(c: char) {
    || '\U{9}' <= c <= '\U{D}' || c == ' ' || c == '\U{85}' || c == '\U{A0}' || c == '\U{1680}'
    || '\U{2000}' <= c <= '\U{200A}' || c == '\U{2028}' || c == '\U{2029}' || c == '\U{202F}'
    || c == '\U{205F}' || c == '\U{3000}'
  }

  function Trim(s: string): string
    decreases |s|
  {
    if s == "" then ""
    else if White(s[0]) then Trim(s[1..])
    else if White(s[|s| - 1]) then Trim(s[..|s| - 1])
    else s
  }

  /** `s[i..j]` is `s` without the white space at its ends. */
  ghost predicate Inside(s: string, i: nat, j: nat) {
    && i <= j <= |s|
    && (forall k | 0 <= k < i || j <= k < |s| :: White(s[k]))
    && (i < j ==> !White(s[i]) && !White(s[j - 1]))
  }

  lemma InsideRest(s: string, i: nat, j: nat)
    requires s != "" && White(s[0]) && Inside(s[1..], i, j)
    ensures Inside(s, i + 1, j + 1) && s[i + 1..j + 1] == s[1..][i..j]
  {
    hide White;
    assert forall k | 1 <= k < |s| :: s[k] == s[1..][k - 1];
  }

  lemma InsideFront(s: string, i: nat, j: nat)
    requires s != "" && White(s[|s| - 1]) && Inside(s[..|s| - 1], i, j)
    ensures Inside(s, i, j) && s[i..j] == s[..|s| - 1][i..j]
  {
    hide White;
    assert forall k | 0 <= k < |s| - 1 :: s[k] == s[..|s| - 1][k];
  }

  /** What trimming does: it takes white space off both ends, and all of it. */
  lemma {:induction false} TrimTakesWhite(s: string) returns (i: nat, j: nat)
    ensures Inside(s, i, j) && Trim(s) == s[i..j]
    decreases |s|
  {
    hide White;
    if s == "" || !(White(s[0]) || White(s[|s| - 1])) {
      i, j := 0, |s|;
    } else if White(s[0]) {
      i, j := TrimTakesWhite(s[1..]);
      InsideRest(s, i, j);
      i, j := i + 1, j + 1;
    } else {
      i, j := TrimTakesWhite(s[..|s| - 1]);
      InsideFront(s, i, j);
    }
  }

  const ALIAS := "/sdcard"

  function Resolve(root: string, path: string): string {
    var trimmed := Trim(path);
    if trimmed == "" || trimmed == "." then root
    else if Absolute(trimmed) then
      if ALIAS <= trimmed && (trimmed == ALIAS || trimmed[|ALIAS|] == '/') then
        Normalize(root + trimmed[|ALIAS|..])
      else Normalize(trimmed)
    else
      var normalized := Normalize(root + "/" + trimmed);
      if root == "/" || root == "" then normalized
      else if normalized == root || root + "/" <= normalized then normalized
      else root
  }

  lemma {:induction false} TrimBlank(s: string)
    requires forall i | 0 <= i < |s| :: s[i] in {' ', '\t', '\n', '\r'}
    ensures Trim(s) == ""
  {
    if s != "" {
      assert s[0] in {' ', '\t', '\n', '\r'};
      TrimBlank(s[1..]);
    }
  }

  /** Blanks, or a dot alone, stand for the root itself. */
  lemma BlankIsRoot(root: string, path: string)
    requires forall i | 0 <= i < |path| :: path[i] in {' ', '\t', '\n', '\r'}
    ensures Resolve(root, path) == root == Resolve(root, ".")
  {
    TrimBlank(path);
  }

  /** Under a normalised root everything resolves to a normal form; an absolute path outside the alias
      to its own, whatever the root. */
  lemma ResolvesToNormal(root: string, path: string)
    ensures Normal(root) ==> Normal(Resolve(root, path))
    ensures Absolute(Trim(path)) && !UnderAlias(Trim(path)) ==> Resolve(root, path) == Normalize(Trim(path))
  {
    var trimmed := Trim(path);
    NormalizeIsNormal(trimmed);
    NormalizeIsNormal(root + "/" + trimmed);
    if |ALIAS| <= |trimmed| {
      NormalizeIsNormal(root + trimmed[|ALIAS|..]);
    }
  }

  /** The path is the alias or goes on behind it with a slash. */
  predicate UnderAlias(path: string) {
    path == ALIAS || ALIAS + "/" <= path
  }

  lemma RootedIsNormal(parts: seq<string>)
    requires Clean(parts)
    ensures Normal("/" + Join(parts, '/')) && Parts("/" + Join(parts, '/')) == parts
  {
    RootedParts(parts);
  }

  /** Cutting a list with an empty front element. */
  lemma CutAfterEmpty(parts: seq<string>, front: seq<string>, back: seq<string>) returns (above: seq<string>)
    requires [""] + parts == front + back && front != [] && back != []
    ensures above < parts && front == [""] + above
  {
    above := parts[..|front| - 1];
    assert front == ([""] + parts)[..|front|] == [""] + above;
  }

  lemma JoinEmptyFirst(above: seq<string>)
    ensures Join([""] + above, '/') == if above == [] then "" else "/" + Join(above, '/')
  {
    assert ([""] + above)[1..] == above;
  }

  /** A text prefix that ends at a slash is a prefix of components. */
  lemma PrefixIsOfParts(root: string, parts: seq<string>)
    requires Clean(parts) && root != ""
    requires root + "/" <= "/" + Join(parts, '/')
    ensures Normal(root) && Parts(root) < parts
  {
    var whole := "/" + Join(parts, '/');
    var rest := whole[|root| + 1..];
    assert whole == root + "/" + rest;
    assert parts == [] ==> whole == "/";
    hide Split, Join, Walk, Normal, Parts;
    SplitConcat(root, rest, '/');
    RootedParts(parts);
    var above := CutAfterEmpty(parts, Split(root, '/'), Split(rest, '/'));
    JoinSplit(root, '/');
    JoinEmptyFirst(above);
    RootedIsNormal(above);
  }

  lemma BelowIsPrefixed(above: seq<string>, there: seq<string>)
    requires above < there && above != []
    ensures "/" + Join(there, '/') == "/" + Join(above, '/') + "/" + Join(there[|above|..], '/')
  {
    assert there == above + there[|above|..];
    JoinBelow(above, there[|above|..], '/');
  }

  lemma PrefixMeansParts(root: string, there: seq<string>)
    requires Normal(root) && root != "/" && Clean(there)
    ensures "/" + Join(there, '/') == root || root + "/" <= "/" + Join(there, '/') <==> Parts(root) <= there
  {
    var normalized := "/" + Join(there, '/');
    RootedParts(there);
    if Parts(root) < there {
      BelowIsPrefixed(Parts(root), there);
      assert root + "/" <= normalized;
    } else if Parts(root) <= there {
      assert Parts(root) == there;
    }
    if root + "/" <= normalized {
      PrefixIsOfParts(root, there);
    }
  }

  /** What the clamp means: under a normalised root, a relative input resolves to the walk from the
      root's components if that still has them all in front, and to the root itself otherwise. */
  lemma ClampIsByComponents(root: string, path: string)
    requires Normal(root) && !Absolute(Trim(path))
    ensures var there := Walk(Parts(root), Split(Trim(path), '/'));
            Resolve(root, path) == "/" + Join(if Parts(root) <= there then there else Parts(root), '/')
  {
    var trimmed := Trim(path);
    var there := Walk(Parts(root), Split(trimmed, '/'));
    WalkBelow(root, trimmed);
    PartsAreClean(root);
    WalkIsClean(Parts(root), Split(trimmed, '/'));
    assert root == "/" + Join(Parts(root), '/');
    if trimmed == "" || trimmed == "." {
      SplitWhole(trimmed, '/');
      assert Walk(Parts(root), [trimmed]) == Parts(root);
    } else if root == "/" {
      NothingAboveRoot("", "");
      RootIsEmpty(Parts(root));
    } else {
      PrefixMeansParts(root, there);
    }
  }

  /** Every resolved relative input is the root or lies below it, by components, not just by text. */
  lemma RelativeStaysBelow(root: string, path: string)
    requires Normal(root) && !Absolute(Trim(path))
    ensures Parts(root) <= Parts(Resolve(root, path)) && Normal(Resolve(root, path))
  {
    PartsAreClean(root);
    RootedParts(Parts(root));
    ClampIsByComponents(root, path);
    var there := Walk(Parts(root), Split(Trim(path), '/'));
    WalkIsClean(Parts(root), Split(Trim(path), '/'));
    RootedParts(there);
  }

  /** Never more ".." than names so far. */
  predicate NeverClimbs(depth: nat, parts: seq<string>)
    decreases |parts|
  {
    if parts == [] then true
    else if parts[0] == "" || parts[0] == "." then NeverClimbs(depth, parts[1..])
    else if parts[0] == ".." then depth > 0 && NeverClimbs(depth - 1, parts[1..])
    else NeverClimbs(depth + 1, parts[1..])
  }

  lemma {:induction false} WalkAbove(base: seq<string>, stack: seq<string>, parts: seq<string>)
    requires NeverClimbs(|stack|, parts)
    ensures Walk(base + stack, parts) == base + Walk(stack, parts)
    decreases |parts|
  {
    if parts != [] {
      assert Step(base + stack, parts[0]) == base + Step(stack, parts[0]);
      WalkAbove(base, Step(stack, parts[0]), parts[1..]);
    }
  }

  /** Where the alias or a relative input means "below the root". */
  function Below(root: string, parts: seq<string>): string {
    if parts == [] then root
    else if root == "/" then "/" + Join(parts, '/')
    else root + "/" + Join(parts, '/')
  }

  lemma JoinedParts(above: seq<string>, below: seq<string>)
    requires Clean(above)
    ensures "/" + Join(above + below, '/') == Below("/" + Join(above, '/'), below)
  {
    if above == [] {
      assert above + below == below;
    } else if below == [] {
      assert above + below == above;
    } else {
      JoinBelow(above, below, '/');
      assert above[0] != "";
      assert |Join(above, '/')| > 0;
    }
  }

  lemma JoinedBelow(root: string, input: string)
    requires Normal(root) && NeverClimbs(0, Split(input, '/'))
    ensures Normalize(root + "/" + input) == Below(root, Parts(input))
  {
    WalkBelow(root, input);
    WalkAbove(Parts(root), [], Split(input, '/'));
    assert Parts(root) + [] == Parts(root);
    PartsAreClean(root);
    JoinedParts(Parts(root), Parts(input));
  }

  /** A relative input that, trimmed, never climbs above where it starts resolves to the root followed
      by its own normal form, without clamping. */
  lemma ResolvesBelowRoot(root: string, path: string)
    requires Normal(root) && NeverClimbs(0, Split(Trim(path), '/')) && !Absolute(Trim(path))
    ensures Resolve(root, path) == Below(root, Parts(Trim(path)))
  {
    var input := Trim(path);
    JoinedBelow(root, input);
    if input == "" || input == "." {
      SplitWhole(input, '/');
      assert Walk([], [input]) == [];
    } else if root != "/" && Parts(input) != [] {
      assert Below(root, Parts(input)) == root + "/" + Join(Parts(input), '/');
    }
  }

  /** The legacy alias "/sdcard" is the root, normalised together with what follows the alias. */
  lemma AliasExpands(root: string, path: string, rest: string)
    requires Trim(path) == ALIAS + rest && (rest == "" || Absolute(rest))
    ensures Resolve(root, path) == Normalize(root + rest)
  {
    var trimmed := ALIAS + rest;
    assert trimmed[|ALIAS|..] == rest && trimmed[0] == '/';
    assert rest == "" ==> trimmed == ALIAS;
    assert rest != "" ==> trimmed[|ALIAS|] == rest[0];
  }

  /** So it means the root: followed by what never climbs, it resolves below the root. */
  lemma AliasMeansRoot(root: string, path: string, input: string)
    requires Normal(root) && Trim(path) == ALIAS + ("/" + input) && NeverClimbs(0, Split(input, '/'))
    ensures Resolve(root, path) == Below(root, Parts(input))
  {
    hide Resolve, Normalize, Split, Join, Below, Trim;
    var rest := "/" + input;
    AliasExpands(root, path, rest);
    assert root + rest == root + "/" + input;
    JoinedBelow(root, input);
  }

  lemma FirstPart(path: string, first: string, rest: string)
    requires Normal(path) && '/' !in first && first != ""
    requires path == "/" + first || path == ("/" + first) + "/" + rest
    ensures Parts(path) != [] && Parts(path)[0] == first
  {
    PartsAreClean(path);
    RootedParts(Parts(path));
    SplitWhole(first, '/');
    assert ("/" + first)[1..] == first;
    assert Split("/" + first, '/') == ["", first];
    SplitConcat("/" + first, rest, '/');
  }

  /** A resolved path resolves to itself, under any root, unless trimming would shorten it or its
      first component is the alias. */
  lemma ResolvedStays(root: string, path: string)
    requires Normal(path) && Trim(path) == path
    requires Parts(path) == [] || Parts(path)[0] != "sdcard"
    ensures Resolve(root, path) == path
  {
    NormalizeIsNormal(path);
    if ALIAS <= path && (path == ALIAS || path[|ALIAS|] == '/') {
      var rest := path[if path == ALIAS then |ALIAS| else |ALIAS| + 1..];
      assert "/" + "sdcard" == ALIAS;
      assert path == ALIAS || path == ALIAS + "/" + rest;
      FirstPart(path, "sdcard", rest);
    }
  }

  // ---- what resolves to itself ----

  /** The length of the components with a slash before each. */
  function Slashed(parts: seq<string>): nat {
    if parts == [] then 0 else 1 + |parts[0]| + Slashed(parts[1..])
  }

  lemma {:induction false} SlashedJoin(parts: seq<string>)
    requires parts != []
    ensures |Join(parts, '/')| + 1 == Slashed(parts)
  {
    if |parts| > 1 {
      SlashedJoin(parts[1..]);
    }
  }

  lemma {:induction false} SlashedSplit(s: string)
    ensures Slashed(Split(s, '/')) == |s| + 1
  {
    if s != "" {
      SlashedSplit(s[1..]);
      var rest := Split(s[1..], '/');
      if s[0] == '/' {
        assert Split(s, '/')[1..] == rest;
      } else {
        assert Split(s, '/')[1..] == rest[1..];
      }
    }
  }

  lemma {:induction false} SlashedAppend(parts: seq<string>, part: string)
    ensures Slashed(parts + [part]) == Slashed(parts) + 1 + |part|
  {
    if parts == [] {
      assert parts + [part] == [part];
    } else {
      assert (parts + [part])[1..] == parts[1..] + [part];
      SlashedAppend(parts[1..], part);
    }
  }

  lemma {:induction false} WalkNotLonger(stack: seq<string>, parts: seq<string>)
    ensures Slashed(Walk(stack, parts)) <= Slashed(stack) + Slashed(parts)
    decreases |parts|
  {
    if parts != [] {
      SlashedAppend(stack, parts[0]);
      if stack != [] {
        assert stack == stack[..|stack| - 1] + [stack[|stack| - 1]];
        SlashedAppend(stack[..|stack| - 1], stack[|stack| - 1]);
      }
      WalkNotLonger(Step(stack, parts[0]), parts[1..]);
    }
  }

  /** Normalising never lengthens an absolute path. */
  lemma NormalizeNotLonger(path: string)
    requires Absolute(path)
    ensures |Normalize(path)| <= |path|
  {
    assert Split(path, '/')[1..] == Split(path[1..], '/');
    assert Parts(path) == Walk([], Split(path[1..], '/'));
    WalkNotLonger([], Split(path[1..], '/'));
    SlashedSplit(path[1..]);
    if Parts(path) != [] {
      SlashedJoin(Parts(path));
    }
  }

  lemma {:induction false} TrimKeepsFront(s: string)
    requires s != "" && !White(s[0])
    ensures Trim(s) <= s && Trim(s) != "" && Trim(s)[0] == s[0]
    decreases |s|
  {
    if White(s[|s| - 1]) {
      TrimKeepsFront(s[..|s| - 1]);
    }
  }

  /** Under the root "/" a path that trimming shortens, or that starts with the alias, gets shorter. */
  lemma ShrinksUnderSlash(path: string)
    requires Normal(path)
    requires Trim(path) != path || (Parts(path) != [] && Parts(path)[0] == "sdcard")
    ensures Resolve("/", path) != path
  {
    NormalizeIsNormal(path);
    TrimKeepsFront(path);
    var trimmed := Trim(path);
    if ALIAS <= trimmed && (trimmed == ALIAS || trimmed[|ALIAS|] == '/') {
      var rest := trimmed[|ALIAS|..];
      assert trimmed == ALIAS + rest;
      AliasExpands("/", path, rest);
      NormalizeNotLonger("/" + rest);
    } else {
      NormalizeNotLonger(trimmed);
      if trimmed == path {
        AliasInFront(path);
      }
    }
  }

  lemma AliasInFront(path: string)
    requires Normal(path) && Parts(path) != [] && Parts(path)[0] == "sdcard"
    ensures ALIAS <= path && (path == ALIAS || path[|ALIAS|] == '/')
  {
    var parts := Parts(path);
    assert path == "/" + Join(parts, '/');
    assert ALIAS == "/" + "sdcard";
    if |parts| > 1 {
      assert Join(parts, '/') == "sdcard" + "/" + Join(parts[1..], '/');
      assert path == ALIAS + "/" + Join(parts[1..], '/');
    }
  }

  /** Fixed points, exactly: a normal path resolves to itself under every root if and only if
      trimming leaves it alone and its first component is not the alias. */
  lemma ResolvedStaysIff(path: string)
    requires Normal(path)
    ensures (forall root :: Resolve(root, path) == path)
            <==> Trim(path) == path && (Parts(path) == [] || Parts(path)[0] != "sdcard")
  {
    if Trim(path) == path && (Parts(path) == [] || Parts(path)[0] != "sdcard") {
      forall root ensures Resolve(root, path) == path {
        ResolvedStays(root, path);
      }
    } else {
      ShrinksUnderSlash(path);
    }
  }

  /** A root that is not in normal form (a trailing slash, say) pins every relative input to it:
      under a root other than "/" and "", some relative input resolves elsewhere exactly when the
      root is normalised. */
  lemma UnnormalRootPinsAll(root: string)
    requires root != "/" && root != ""
    ensures (exists path :: !Absolute(Trim(path)) && Resolve(root, path) != root) <==> Normal(root)
  {
    if Normal(root) {
      var path := "x";
      SplitWhole(path, '/');
      assert Walk([], ["x"]) == ["x"];
      ResolvesBelowRoot(root, path);
      assert Resolve(root, path) == root + "/" + Join(["x"], '/');
    } else {
      forall path | !Absolute(Trim(path)) ensures Resolve(root, path) == root {
        var normalized := Normalize(root + "/" + Trim(path));
        PartsAreClean(root + "/" + Trim(path));
        NormalizeIsNormal(root + "/" + Trim(path));
        if root + "/" <= normalized {
          PrefixIsOfParts(root, Parts(root + "/" + Trim(path)));
        }
      }
    }
  }
}
