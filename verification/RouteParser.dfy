/** Reading the Rails route file line by line with a stack of frames. */
module RouteParser {
  import opened Sequences
  import opened Text
  import opened Wrappers

  datatype Route = Route(verb: string, path: string)

  /** The path prefixes in force inside a block: for nested resources, collection routes and member routes. */
  datatype Frame = Frame(nested: string, collection: string, member: string)

  /** A line by its form. Absent `only` means every action; a block line has its `end` further down. */
  datatype Line =
    | Skipped
    | End
    | Namespace(name: string)
    | Scope(name: string)
    | ModuleScope
    | MemberBlock
    | CollectionBlock
    | Resources(name: string, only: Option<seq<string>>, param: string, opens: bool)
    | Resource(name: string, only: Option<seq<string>>, opens: bool)
    | OtherBlock
    | Direct(verb: string, token: string)

  // ---- Paths --------------------------------------------------------------------------------

  /** Runs of slashes become one. */
  function SqueezeSlashes(s: string): string {
    if |s| < 2 then s
    else if s[0] == '/' && s[1] == '/' then SqueezeSlashes(s[1..])
    else [s[0]] + SqueezeSlashes(s[1..])
  }

  function NormalizePath(path: string): string {
    var p := SqueezeSlashes(path);
    if p != "" && p[0] == '/' then p else "/" + p
  }

  /** An absolute path without empty segments. */
  ghost predicate IsNormal(p: string) {
    p != "" && p[0] == '/' && forall i :: 0 <= i < |p| - 1 ==> !(p[i] == '/' && p[i + 1] == '/')
  }

  lemma {:induction false} SqueezedHasNoRun(s: string)
    ensures var p := SqueezeSlashes(s);
      && (p == "" <==> s == "") && (p != "" ==> p[0] == s[0])
      && forall i :: 0 <= i < |p| - 1 ==> !(p[i] == '/' && p[i + 1] == '/')
  {
    if |s| >= 2 {
      SqueezedHasNoRun(s[1..]);
    }
  }

  lemma NormalizedIsNormal(path: string)
    ensures IsNormal(NormalizePath(path))
  {
    SqueezedHasNoRun(path);
    var p := SqueezeSlashes(path);
    assert p == "" || p[0] != '/' ==> forall i :: 0 <= i < |p| ==> ("/" + p)[i + 1] == p[i];
  }

  /** The parameter that identifies the outer resource in nested paths. */
  function NestedParam(name: string, param: string): string {
    if param != "id" then param
    else (if HasSuffix(name, "ies") then name[..|name| - 3] + "y"
          else if HasSuffix(name, "ses") then name[..|name| - 2]
          else if HasSuffix(name, "s") then name[..|name| - 1]
          else name) + "_id"
  }

  function StripLeft(s: string): string {
    if s != "" && s[0] == '/' then StripLeft(s[1..]) else s
  }

  // ---- What one line contributes ------------------------------------------------------------

  const PLURAL_ACTIONS := ["index", "show", "create", "update", "destroy"]
  const SINGULAR_ACTIONS := ["show", "create", "update", "destroy"]

  /** The verbs of an action, and whether its path names one member; unknown actions stop the script. */
  function VerbsOf(action: string, plural: bool): Option<seq<string>> {
    if action == "index" && plural then Some(["GET"])
    else if action == "show" then Some(["GET"])
    else if action == "create" then Some(["POST"])
    else if action == "update" then Some(["PUT", "PATCH"])
    else if action == "destroy" then Some(["DELETE"])
    else None
  }

  predicate NamesMember(action: string) {
    action == "show" || action == "update" || action == "destroy"
  }

  function WithPath(verbs: seq<string>, path: string): seq<Route> {
    if verbs == [] then [] else [Route(verbs[0], path)] + WithPath(verbs[1..], path)
  }

  function ActionRoutes(actions: seq<string>, plural: bool, base: string, memberSuffix: string): Option<seq<Route>> {
    if actions == [] then Some([])
    else
      var verbs := VerbsOf(actions[0], plural);
      var rest := ActionRoutes(actions[1..], plural, base, memberSuffix);
      if verbs.None? || rest.None? then None
      else
        var path := NormalizePath(base + (if plural && NamesMember(actions[0]) then memberSuffix else ""));
        Some(WithPath(verbs.value, path) + rest.value)
  }

  function Below(path: string, name: string): string {
    NormalizePath(path + "/" + name)
  }

  function Emits(line: Line, frame: Frame): Option<seq<Route>> {
    match line
    case Resources(name, only, param, _) =>
      ActionRoutes(if only.Some? then only.value else PLURAL_ACTIONS, true, Below(frame.nested, name), "/:" + param)
    case Resource(name, only, _) =>
      ActionRoutes(if only.Some? then only.value else SINGULAR_ACTIONS, false, Below(frame.nested, name), "")
    case Direct(verb, token) =>
      Some([Route(verb, Below(frame.nested, if token != "" && token[0] == ':' then token[1..] else StripLeft(token)))])
    case _ => Some([])
  }

  predicate Opens(line: Line) {
    match line
    case Namespace(_) => true
    case Scope(_) => true
    case ModuleScope => true
    case MemberBlock => true
    case CollectionBlock => true
    case Resources(_, _, _, opens) => opens
    case Resource(_, _, opens) => opens
    case OtherBlock => true
    case _ => false
  }

  /** The frame inside the block that a line opens. */
  function FrameInside(line: Line, frame: Frame): Frame {
    match line
    case Namespace(name) => var p := Below(frame.nested, name); Frame(p, p, p)
    case Scope(name) => var p := Below(frame.nested, name); Frame(p, p, p)
    case MemberBlock => Frame(frame.member, frame.collection, frame.member)
    case CollectionBlock => Frame(frame.collection, frame.collection, frame.member)
    case Resources(name, _, param, _) =>
      var base := Below(frame.nested, name);
      Frame(NormalizePath(base + "/:" + NestedParam(name, param)), base, NormalizePath(base + "/:" + param))
    case Resource(name, _, _) => var p := Below(frame.nested, name); Frame(p, p, p)
    case _ => frame
  }

  // ---- Well-nested files --------------------------------------------------------------------

  datatype Forest =
    | Empty
    | Single(line: Line, rest: Forest)
    | Block(open: Line, body: Forest, rest: Forest)

  predicate WellNested(f: Forest) {
    match f
    case Empty => true
    case Single(line, rest) => !Opens(line) && line != End && WellNested(rest)
    case Block(open, body, rest) => Opens(open) && open != End && WellNested(body) && WellNested(rest)
  }

  function Lines(f: Forest): seq<Line> {
    match f
    case Empty => []
    case Single(line, rest) => [line] + Lines(rest)
    case Block(open, body, rest) => [open] + (Lines(body) + ([End] + Lines(rest)))
  }

  function Join(a: Option<seq<Route>>, b: Option<seq<Route>>): Option<seq<Route>> {
    if a.None? || b.None? then None else Some(a.value + b.value)
  }

  /** The routes of a well-nested file under a frame: a block's body is read under the frame the block opens. */
  function Meaning(f: Forest, frame: Frame): Option<seq<Route>> {
    match f
    case Empty => Some([])
    case Single(line, rest) => Join(Emits(line, frame), Meaning(rest, frame))
    case Block(open, body, rest) =>
      Join(Emits(open, frame), Join(Meaning(body, FrameInside(open, frame)), Meaning(rest, frame)))
  }

  // ---- The line-by-line parser --------------------------------------------------------------

  datatype State = State(frames: seq<Frame>, routes: seq<Route>)

  predicate Running(s: State) {
    s.frames != []
  }

  /** One line; None stands for the exception an unknown action raises. */
  function Step(s: State, line: Line): (r: Option<State>)
    requires Running(s)
    ensures r.Some? ==> Running(r.value)
  {
    var top := s.frames[|s.frames| - 1];
    if line == End then Some(s.(frames := if |s.frames| > 1 then s.frames[..|s.frames| - 1] else s.frames))
    else match Emits(line, top)
      case None => None
      case Some(emitted) =>
        Some(State(if Opens(line) then s.frames + [FrameInside(line, top)] else s.frames, s.routes + emitted))
  }

  function Run(s: State, lines: seq<Line>): Option<State>
    requires Running(s)
    decreases |lines|
  {
    if lines == [] then Some(s)
    else match Step(s, lines[0])
      case None => None
      case Some(t) => Run(t, lines[1..])
  }

  ghost predicate AllNormal(routes: seq<Route>) {
    forall i :: 0 <= i < |routes| ==> IsNormal(routes[i].path)
  }

  lemma {:induction false} WithPathNormal(verbs: seq<string>, path: string)
    requires IsNormal(path)
    ensures AllNormal(WithPath(verbs, path))
  {
    hide IsNormal;
    if verbs != [] {
      WithPathNormal(verbs[1..], path);
    }
  }

  lemma {:induction false} ActionRoutesNormal(actions: seq<string>, plural: bool, base: string, memberSuffix: string)
    ensures var r := ActionRoutes(actions, plural, base, memberSuffix); r.Some? ==> AllNormal(r.value)
  {
    hide IsNormal;
    if actions != [] {
      ActionRoutesNormal(actions[1..], plural, base, memberSuffix);
      var path := NormalizePath(base + (if plural && NamesMember(actions[0]) then memberSuffix else ""));
      NormalizedIsNormal(base + (if plural && NamesMember(actions[0]) then memberSuffix else ""));
      if VerbsOf(actions[0], plural).Some? {
        WithPathNormal(VerbsOf(actions[0], plural).value, path);
      }
    }
  }

  lemma EmittedNormal(line: Line, frame: Frame)
    ensures Emits(line, frame).Some? ==> AllNormal(Emits(line, frame).value)
  {
    hide IsNormal;
    hide ActionRoutes;
    hide NormalizePath;
    match line
    case Resources(name, only, param, _) =>
      ActionRoutesNormal(if only.Some? then only.value else PLURAL_ACTIONS, true, Below(frame.nested, name), "/:" + param);
    case Resource(name, only, _) =>
      ActionRoutesNormal(if only.Some? then only.value else SINGULAR_ACTIONS, false, Below(frame.nested, name), "");
    case Direct(verb, token) =>
      var name := if token != "" && token[0] == ':' then token[1..] else StripLeft(token);
      NormalizedIsNormal(frame.nested + "/" + name);
    case _ =>
  }

  /** Whatever the lines, nested properly or not, every path found is absolute and without empty segments. */
  lemma {:induction false} RunFindsNormalPaths(s: State, lines: seq<Line>)
    requires Running(s) && AllNormal(s.routes)
    ensures Run(s, lines).Some? ==> AllNormal(Run(s, lines).value.routes)
    decreases |lines|
  {
    if lines != [] {
      hide IsNormal;
      hide Emits;
      EmittedNormal(lines[0], s.frames[|s.frames| - 1]);
      if Step(s, lines[0]).Some? {
        RunFindsNormalPaths(Step(s, lines[0]).value, lines[1..]);
      }
    }
  }

  lemma LineRuns(s: State, line: Line, rest: seq<Line>)
    requires Running(s) && line != End
    ensures var top := s.frames[|s.frames| - 1];
      var e := Emits(line, top);
      Run(s, [line] + rest) ==
        if e.None? then None
        else Run(State(if Opens(line) then s.frames + [FrameInside(line, top)] else s.frames, s.routes + e.value), rest)
  {
    assert ([line] + rest)[1..] == rest;
  }

  lemma EndCloses(s: State, inside: Frame, rest: seq<Line>)
    requires Running(s)
    ensures Run(s.(frames := s.frames + [inside]), [End] + rest) == Run(s, rest)
  {
    assert ([End] + rest)[1..] == rest;
    assert (s.frames + [inside])[..|s.frames|] == s.frames;
  }

  /** Reading a well-nested stretch adds its routes and leaves the stack of frames as it was. */
  lemma {:induction false} RunFollowsMeaning(f: Forest, s: State, rest: seq<Line>)
    requires WellNested(f) && Running(s)
    ensures var m := Meaning(f, s.frames[|s.frames| - 1]);
      Run(s, Lines(f) + rest) == if m.None? then None else Run(s.(routes := s.routes + m.value), rest)
    decreases f
  {
    hide Emits;
    hide Opens;
    hide FrameInside;
    hide Run;
    var top := s.frames[|s.frames| - 1];
    match f
    case Empty =>
      assert Lines(f) + rest == rest && s.routes + [] == s.routes;
    case Single(line, tail) =>
      assert Lines(f) + rest == [line] + (Lines(tail) + rest);
      LineRuns(s, line, Lines(tail) + rest);
      var e := Emits(line, top);
      if e.Some? {
        RunFollowsMeaning(tail, s.(routes := s.routes + e.value), rest);
        AddTwice(s.routes, e.value, Meaning(tail, top));
      }
    case Block(open, body, tail) =>
      var behind := [End] + (Lines(tail) + rest);
      assert Lines(f) + rest == [open] + (Lines(body) + behind);
      LineRuns(s, open, Lines(body) + behind);
      var e, inside := Emits(open, top), FrameInside(open, top);
      if e.Some? {
        var inner := State(s.frames + [inside], s.routes + e.value);
        RunFollowsMeaning(body, inner, behind);
        var b := Meaning(body, inside);
        if b.Some? {
          var after := State(s.frames, s.routes + e.value + b.value);
          EndCloses(after, inside, Lines(tail) + rest);
          RunFollowsMeaning(tail, after, rest);
          AddThrice(s.routes, e.value, b.value, Meaning(tail, top));
        }
      }
  }

  lemma AddTwice(a: seq<Route>, b: seq<Route>, c: Option<seq<Route>>)
    ensures c.Some? ==> a + b + c.value == a + (b + c.value)
  {
  }

  lemma AddThrice(a: seq<Route>, b: seq<Route>, c: seq<Route>, d: Option<seq<Route>>)
    ensures d.Some? ==> a + b + c + d.value == a + (b + (c + d.value))
  {
  }

  // ---- The whole parser ---------------------------------------------------------------------

  const ROOT := Frame("", "", "")

  const DISCOVERY_ROUTES := [
    Route("GET", "/.well-known/oauth-authorization-server"),
    Route("GET", "/.well-known/nodeinfo"),
    Route("GET", "/.well-known/webfinger"),
    Route("GET", "/oauth/userinfo"),
    Route("POST", "/oauth/userinfo"),
    Route("GET", "/api/oembed")
  ]

  function UpstreamPath(path: string): string {
    if path == "/oembed" then "/api/oembed"
    else if HasPrefix(path, "/v1/") || HasPrefix(path, "/v2/") || HasPrefix(path, "/web/") || HasPrefix(path, "/v1_alpha/")
    then "/api" + path
    else path
  }

  function Upstream(routes: seq<Route>): (r: seq<Route>)
    ensures |r| == |routes|
    ensures forall i :: 0 <= i < |r| ==> r[i] == Route(routes[i].verb, UpstreamPath(routes[i].path))
  {
    if routes == [] then []
    else Upstream(routes[..|routes| - 1])
         + [Route(routes[|routes| - 1].verb, UpstreamPath(routes[|routes| - 1].path))]
  }

  method ParseUpstreamApiRoutes(lines: seq<Line>) returns (routes: Option<seq<Route>>)
    ensures routes == match Run(State([ROOT], []), lines)
                      case None => None
                      case Some(s) => Some(FirstOccurrences(Upstream(DISCOVERY_ROUTES + s.routes)))
  {
    var frames, found := [ROOT], [];
    var start := State([ROOT], []);
    assert lines[0..] == lines;
    for i := 0 to |lines|
      invariant frames != [] && Run(start, lines) == Run(State(frames, found), lines[i..])
    {
      var line := lines[i];
      assert lines[i..][0] == line && lines[i..][1..] == lines[i + 1..];
      if line == End {
        if |frames| > 1 {
          frames := frames[..|frames| - 1];
        }
        continue;
      }
      var current := frames[|frames| - 1];
      var emitted := Emits(line, current);
      if emitted.None? {
        return None;
      }
      found := found + emitted.value;
      if Opens(line) {
        frames := frames + [FrameInside(line, current)];
      }
    }
    var deduped := Dedupe(DISCOVERY_ROUTES + found);
    routes := Some(deduped);
  }

  method Dedupe(routes: seq<Route>) returns (deduped: seq<Route>)
    ensures deduped == FirstOccurrences(Upstream(routes))
  {
    deduped := [];
    var seen: set<Route> := {};
    for i := 0 to |routes|
      invariant deduped == FirstOccurrences(Upstream(routes[..i]))
      invariant forall r :: r in seen <==> r in deduped
    {
      var normalized := Route(routes[i].verb, UpstreamPath(routes[i].path));
      assert routes[..i + 1][..i] == routes[..i];
      FirstOccurrencesSnoc(Upstream(routes[..i]), normalized);
      if normalized in seen {
        continue;
      }
      seen, deduped := seen + {normalized}, deduped + [normalized];
    }
    assert routes[..|routes|] == routes;
  }

  /** A well-nested file yields its routes behind the discovery routes, first occurrences only. */
  lemma ParsedFileIsMeaning(f: Forest)
    requires WellNested(f)
    ensures Run(State([ROOT], []), Lines(f)) ==
            match Meaning(f, ROOT) case None => None case Some(rs) => Some(State([ROOT], rs))
  {
    RunFollowsMeaning(f, State([ROOT], []), []);
    assert Lines(f) + [] == Lines(f);
    assert forall rs: seq<Route> :: [] + rs == rs;
  }

  // ---- Which routes a block of resources has ------------------------------------------------

  /** A name as the script finds one: not empty and without slashes. */
  predicate IsName(name: string) {
    name != "" && forall i :: 0 <= i < |name| ==> name[i] != '/'
  }

  /** A path that a name can be put below. */
  ghost predicate IsBase(p: string) {
    p == "" || (IsNormal(p) && p[|p| - 1] != '/')
  }

  ghost predicate NoRun(s: string) {
    forall i :: 0 <= i < |s| - 1 ==> !(s[i] == '/' && s[i + 1] == '/')
  }

  lemma RestHasNoRun(s: string)
    requires NoRun(s) && |s| >= 2
    ensures NoRun(s[1..]) && !(s[0] == '/' && s[1] == '/')
  {
    var rest := s[1..];
    forall i | 0 <= i < |rest| - 1
      ensures !(rest[i] == '/' && rest[i + 1] == '/')
    {
      assert rest[i] == s[i + 1] && rest[i + 1] == s[i + 1 + 1];
    }
  }

  lemma {:induction false} NothingToSqueeze(s: string)
    requires NoRun(s)
    ensures SqueezeSlashes(s) == s
  {
    hide NoRun;
    if |s| >= 2 {
      RestHasNoRun(s);
      NothingToSqueeze(s[1..]);
      assert s == [s[0]] + s[1..];
    }
  }

  /** A normal path stays as it is, and one that lacks only the first slash gets it. */
  lemma NormalStays(p: string)
    requires IsNormal(p)
    ensures NormalizePath(p) == p && NormalizePath(p[1..]) == p
  {
    NothingToSqueeze(p);
    if |p| >= 2 {
      RestHasNoRun(p);
    }
    NothingToSqueeze(p[1..]);
    assert p == "/" + p[1..];
  }

  lemma BelowName(p: string, name: string)
    requires IsBase(p) && IsName(name)
    ensures Below(p, name) == p + "/" + name && IsBase(p + "/" + name)
  {
    var path := p + "/" + name;
    assert path[|p|] == '/' && forall i :: 0 <= i < |name| ==> path[|p| + 1 + i] == name[i];
    assert forall i :: |p| < i < |path| ==> path[i] == name[i - |p| - 1] != '/';
    assert forall i :: 0 <= i < |p| ==> path[i] == p[i];
    assert IsNormal(path);
    NormalStays(path);
  }

  lemma BelowParam(p: string, param: string)
    requires IsBase(p) && IsName(param)
    ensures NormalizePath(p + "/:" + param) == p + "/:" + param && IsBase(p + "/:" + param)
  {
    var name := ":" + param;
    assert forall i :: 0 < i < |name| ==> name[i] == param[i - 1];
    BelowName(p, name);
    assert p + "/" + name == p + "/:" + param;
  }

  lemma ActionStep(action: string, actions: seq<string>, plural: bool, base: string, suffix: string,
                   verbs: seq<string>, path: string, rest: seq<Route>)
    requires VerbsOf(action, plural) == Some(verbs) && ActionRoutes(actions, plural, base, suffix) == Some(rest)
    requires NormalizePath(base + (if plural && NamesMember(action) then suffix else "")) == path
    ensures ActionRoutes([action] + actions, plural, base, suffix) == Some(WithPath(verbs, path) + rest)
  {
    hide VerbsOf;
    hide NormalizePath;
    assert ([action] + actions)[1..] == actions;
  }

  lemma NoActions(plural: bool, base: string, suffix: string)
    ensures ActionRoutes([], plural, base, suffix) == Some([])
  {
  }

  lemma OneVerb(verb: string, path: string)
    ensures WithPath([verb], path) == [Route(verb, path)]
  {
    assert [verb][1..] == [];
  }

  lemma TwoVerbs(verb: string, other: string, path: string)
    ensures WithPath([verb, other], path) == [Route(verb, path), Route(other, path)]
  {
    OneVerb(other, path);
    assert [verb, other][1..] == [other];
  }

  lemma VerbTable(plural: bool)
    ensures VerbsOf("index", true) == Some(["GET"]) && VerbsOf("index", false) == None && !NamesMember("index")
    ensures VerbsOf("show", plural) == Some(["GET"]) && NamesMember("show")
    ensures VerbsOf("create", plural) == Some(["POST"]) && !NamesMember("create")
    ensures VerbsOf("update", plural) == Some(["PUT", "PATCH"]) && NamesMember("update")
    ensures VerbsOf("destroy", plural) == Some(["DELETE"]) && NamesMember("destroy")
  {
  }

  lemma PlainPath(base: string)
    requires IsBase(base) && base != ""
    ensures NormalizePath(base + "") == base
  {
    NormalStays(base);
    assert base + "" == base;
  }

  /** The actions on what is there: one member of a plural resource, or a singular one. */
  lemma ChangeRoutes(plural: bool, base: string, suffix: string, one: string)
    requires NormalizePath(base + (if plural then suffix else "")) == one
    ensures ActionRoutes(["update", "destroy"], plural, base, suffix) ==
      Some([Route("PUT", one), Route("PATCH", one), Route("DELETE", one)])
  {
    VerbTable(plural);
    OneVerb("DELETE", one);
    TwoVerbs("PUT", "PATCH", one);
    NoActions(plural, base, suffix);
    hide *;
    ActionStep("destroy", [], plural, base, suffix, ["DELETE"], one, []);
    assert ["destroy"] + [] == ["destroy"] && [Route("DELETE", one)] + [] == [Route("DELETE", one)];
    ActionStep("update", ["destroy"], plural, base, suffix, ["PUT", "PATCH"], one, [Route("DELETE", one)]);
    assert ["update"] + ["destroy"] == ["update", "destroy"];
    assert [Route("PUT", one), Route("PATCH", one)] + [Route("DELETE", one)]
           == [Route("PUT", one), Route("PATCH", one), Route("DELETE", one)];
  }

  lemma ShowAndChange(plural: bool, base: string, suffix: string, one: string)
    requires NormalizePath(base + "") == base && NormalizePath(base + (if plural then suffix else "")) == one
    ensures ActionRoutes(["show", "create", "update", "destroy"], plural, base, suffix) ==
      Some([Route("GET", one), Route("POST", base), Route("PUT", one), Route("PATCH", one), Route("DELETE", one)])
  {
    VerbTable(plural);
    OneVerb("GET", one);
    OneVerb("POST", base);
    ChangeRoutes(plural, base, suffix, one);
    hide *;
    var changes := [Route("PUT", one), Route("PATCH", one), Route("DELETE", one)];
    ActionStep("create", ["update", "destroy"], plural, base, suffix, ["POST"], base, changes);
    assert ["create"] + ["update", "destroy"] == ["create", "update", "destroy"];
    ActionStep("show", ["create", "update", "destroy"], plural, base, suffix, ["GET"], one, [Route("POST", base)] + changes);
    assert [Route("GET", one)] + ([Route("POST", base)] + changes)
           == [Route("GET", one), Route("POST", base), Route("PUT", one), Route("PATCH", one), Route("DELETE", one)];
    assert ["show"] + ["create", "update", "destroy"] == ["show", "create", "update", "destroy"];
  }

  /** Every action of a plural resource: two of them on the collection, four verbs on one member. */
  lemma PluralRoutes(base: string, param: string)
    requires IsBase(base) && base != "" && IsName(param)
    ensures var one := base + "/:" + param;
      ActionRoutes(PLURAL_ACTIONS, true, base, "/:" + param) ==
        Some([Route("GET", base), Route("GET", one), Route("POST", base), Route("PUT", one), Route("PATCH", one),
              Route("DELETE", one)])
  {
    var suffix, one := "/:" + param, base + "/:" + param;
    BelowParam(base, param);
    PlainPath(base);
    assert base + suffix == one;
    VerbTable(true);
    OneVerb("GET", base);
    hide *;
    ShowAndChange(true, base, suffix, one);
    var others := [Route("GET", one), Route("POST", base), Route("PUT", one), Route("PATCH", one), Route("DELETE", one)];
    ActionStep("index", ["show", "create", "update", "destroy"], true, base, suffix, ["GET"], base, others);
    assert [Route("GET", base)] + others ==
      [Route("GET", base), Route("GET", one), Route("POST", base), Route("PUT", one), Route("PATCH", one),
       Route("DELETE", one)];
    assert ["index"] + ["show", "create", "update", "destroy"] == PLURAL_ACTIONS;
  }

  /** Every action of a singular resource, all on the one path. */
  lemma SingularRoutes(base: string)
    requires IsBase(base) && base != ""
    ensures ActionRoutes(SINGULAR_ACTIONS, false, base, "") ==
      Some([Route("GET", base), Route("POST", base), Route("PUT", base), Route("PATCH", base), Route("DELETE", base)])
  {
    PlainPath(base);
    ShowAndChange(false, base, "", base);
  }

  lemma OnlyIndex(base: string, suffix: string)
    requires IsBase(base) && base != ""
    ensures ActionRoutes(["index"], true, base, suffix) == Some([Route("GET", base)])
  {
    PlainPath(base);
    OneVerb("GET", base);
    NoActions(true, base, suffix);
    VerbTable(true);
    hide *;
    ActionStep("index", [], true, base, suffix, ["GET"], base, []);
    assert ["index"] + [] == ["index"] && [Route("GET", base)] + [] == [Route("GET", base)];
  }

  lemma SuffixOfConcat(stem: string, ending: string)
    ensures HasSuffix(stem + ending, ending) && (stem + ending)[..|stem|] == stem
  {
  }

  lemma NamedInIes(stem: string)
    ensures NestedParam(stem + "ies", "id") == stem + "y_id"
  {
    SuffixOfConcat(stem, "ies");
    assert stem + "y" + "_id" == stem + "y_id";
  }

  lemma NamedInSes(stem: string)
    ensures NestedParam(stem + "ses", "id") == stem + "s_id"
  {
    var name := stem + "ses";
    SuffixOfConcat(stem, "ses");
    assert name[|name| - 3..][0] == 's';
    assert name[..|name| - 2] == stem + "s";
    assert stem + "s" + "_id" == stem + "s_id";
  }

  lemma NamedInS(stem: string)
    requires !HasSuffix(stem, "ie") && !HasSuffix(stem, "se")
    ensures NestedParam(stem + "s", "id") == stem + "_id"
  {
    var name := stem + "s";
    SuffixOfConcat(stem, "s");
    if |stem| >= 2 {
      assert name[|name| - 3..][..2] == stem[|stem| - 2..];
      assert "ies"[..2] == "ie" && "ses"[..2] == "se";
    }
  }

  lemma EndsInS(name: string, front: string)
    ensures HasSuffix(name, front + "s") ==> HasSuffix(name, "s")
  {
  }

  lemma NamedOtherwise(stem: string)
    requires !HasSuffix(stem, "s")
    ensures NestedParam(stem, "id") == stem + "_id"
  {
    EndsInS(stem, "ie");
    EndsInS(stem, "se");
  }

  /** How the parameter of nested paths is named: explicitly, or after the singular of the resource. */
  lemma NestedParamNames(stem: string, param: string)
    ensures param != "id" ==> NestedParam(stem, param) == param
    ensures NestedParam(stem + "ies", "id") == stem + "y_id"
    ensures NestedParam(stem + "ses", "id") == stem + "s_id"
    ensures !HasSuffix(stem, "ie") && !HasSuffix(stem, "se") ==> NestedParam(stem + "s", "id") == stem + "_id"
    ensures !HasSuffix(stem, "s") ==> NestedParam(stem, "id") == stem + "_id"
  {
    NamedInIes(stem);
    NamedInSes(stem);
    if !HasSuffix(stem, "ie") && !HasSuffix(stem, "se") {
      NamedInS(stem);
    }
    if !HasSuffix(stem, "s") {
      NamedOtherwise(stem);
    }
    hide HasSuffix;
  }

  lemma NamedFrames(name: string, param: string, frame: Frame, opens: bool)
    ensures var p := Below(frame.nested, name);
      && FrameInside(Namespace(name), frame) == FrameInside(Scope(name), frame) == Frame(p, p, p)
      && FrameInside(Resource(name, None, opens), frame) == Frame(p, p, p)
      && FrameInside(Resources(name, None, param, opens), frame) ==
           Frame(NormalizePath(p + "/:" + NestedParam(name, param)), p, NormalizePath(p + "/:" + param))
      && Emits(Resource(name, None, opens), frame) == ActionRoutes(SINGULAR_ACTIONS, false, p, "")
  {
    hide Below;
    hide ActionRoutes;
    hide NormalizePath;
    hide NestedParam;
  }

  /** Where the body of each kind of block stands, given any frame around it. */
  lemma BlockFrames(name: string, param: string, frame: Frame, opens: bool)
    requires IsName(name) && IsName(param) && IsBase(frame.nested)
    ensures var p := frame.nested + "/" + name;
      && FrameInside(Namespace(name), frame) == FrameInside(Scope(name), frame) == Frame(p, p, p)
      && FrameInside(Resource(name, None, opens), frame) == Frame(p, p, p)
      && FrameInside(Resources(name, None, param, opens), frame) ==
           Frame(NormalizePath(p + "/:" + NestedParam(name, param)), p, p + "/:" + param)
      && Emits(Resource(name, None, opens), frame) ==
           Some([Route("GET", p), Route("POST", p), Route("PUT", p), Route("PATCH", p), Route("DELETE", p)])
      && Emits(Namespace(name), frame) == Emits(Scope(name), frame) == Some([])
    ensures FrameInside(MemberBlock, frame) == Frame(frame.member, frame.collection, frame.member)
    ensures FrameInside(CollectionBlock, frame) == Frame(frame.collection, frame.collection, frame.member)
    ensures forall line :: line == ModuleScope || line == OtherBlock ==>
      Opens(line) && FrameInside(line, frame) == frame && Emits(line, frame) == Some([])
    ensures Opens(Namespace(name)) && Opens(Scope(name)) && Opens(MemberBlock) && Opens(CollectionBlock)
    ensures Opens(Resource(name, None, opens)) == Opens(Resources(name, None, param, opens)) == opens
  {
    BelowName(frame.nested, name);
    BelowParam(frame.nested + "/" + name, param);
    SingularRoutes(frame.nested + "/" + name);
    NamedFrames(name, param, frame, opens);
    hide Below;
    hide ActionRoutes;
    hide IsNormal;
    hide IsName;
    hide NormalizePath;
    hide NestedParam;
  }

  lemma PrefixIff(path: string, prefix: string)
    ensures HasPrefix(path, prefix) <==> exists rest :: path == prefix + rest
  {
    if HasPrefix(path, prefix) {
      assert path == prefix + path[|prefix|..];
    }
  }

  /** Which paths move below `/api`. */
  lemma MovedPaths(path: string)
    ensures UpstreamPath(path) ==
      if path == "/oembed" || (exists rest :: path == "/v1/" + rest) || (exists rest :: path == "/v2/" + rest)
         || (exists rest :: path == "/web/" + rest) || (exists rest :: path == "/v1_alpha/" + rest)
      then "/api" + path else path
  {
    PrefixIff(path, "/v1/");
    PrefixIff(path, "/v2/");
    PrefixIff(path, "/web/");
    PrefixIff(path, "/v1_alpha/");
    hide HasPrefix;
    assert "/api" + "/oembed" == "/api/oembed";
  }

  lemma {:induction false} NameAfterSlash(name: string)
    requires IsName(name)
    ensures StripLeft(name) == name && StripLeft("/" + name) == name
  {
    assert ("/" + name)[1..] == name;
  }

  lemma DirectRoute(verb: string, p: string, name: string, frame: Frame)
    requires IsBase(p) && IsName(name) && frame.nested == p && name[0] != ':'
    ensures Emits(Direct(verb, ":" + name), frame) == Some([Route(verb, p + "/" + name)])
    ensures Emits(Direct(verb, "/" + name), frame) == Some([Route(verb, p + "/" + name)])
  {
    BelowName(p, name);
    NameAfterSlash(name);
    assert (":" + name)[1..] == name;
  }

  lemma JoinOf(a: seq<Route>, b: seq<Route>)
    ensures Join(Some(a), Some(b)) == Some(a + b)
  {
  }

  /** One line in front, one block in front. */
  lemma SingleMeaning(line: Line, rest: Forest, frame: Frame)
    ensures Meaning(Single(line, rest), frame) == Join(Emits(line, frame), Meaning(rest, frame))
    ensures Meaning(Empty, frame) == Some([])
    ensures Lines(Single(line, rest)) == [line] + Lines(rest) && Lines(Empty) == []
  {
    hide Emits;
  }

  lemma BlockMeaning(open: Line, body: Forest, rest: Forest, frame: Frame)
    ensures Meaning(Block(open, body, rest), frame) ==
      Join(Emits(open, frame), Join(Meaning(body, FrameInside(open, frame)), Meaning(rest, frame)))
    ensures Lines(Block(open, body, rest)) == [open] + (Lines(body) + ([End] + Lines(rest)))
  {
    hide Emits;
    hide FrameInside;
  }

  /** A block with one line in it. */
  lemma OneLineBlock(open: Line, line: Line, rest: Forest, frame: Frame, found: seq<Route>)
    requires Emits(open, frame) == Some([]) && Emits(line, FrameInside(open, frame)) == Some(found)
    ensures Meaning(Block(open, Single(line, Empty), rest), frame) == Join(Some(found), Meaning(rest, frame))
    ensures Lines(Block(open, Single(line, Empty), rest)) == [open, line, End] + Lines(rest)
  {
    BlockMeaning(open, Single(line, Empty), rest, frame);
    SingleMeaning(line, Empty, FrameInside(open, frame));
    hide Emits;
    hide FrameInside;
    hide Meaning;
    hide Lines;
    var r := Meaning(rest, frame);
    if r.Some? {
      assert [] + (found + [] + r.value) == found + r.value;
    }
    assert [open] + ([line] + [] + ([End] + Lines(rest))) == [open, line, End] + Lines(rest);
  }

  /** What may stand in a block of resources: a member route, a collection route and a resource of its own. */
  function ResourceBody(act: string, col: string, inner: string): Forest {
    Block(MemberBlock, Single(Direct("POST", ":" + act), Empty),
      Block(CollectionBlock, Single(Direct("GET", "/" + col), Empty),
        Single(Resources(inner, Some(["index"]), "id", false), Empty)))
  }

  lemma BlocksEmitNothing(frame: Frame)
    ensures Emits(MemberBlock, frame) == Some([]) && Emits(CollectionBlock, frame) == Some([])
    ensures FrameInside(MemberBlock, frame).nested == frame.member
    ensures FrameInside(CollectionBlock, frame).nested == frame.collection
  {
  }

  lemma InnerIndex(inner: string, frame: Frame)
    requires IsName(inner) && IsBase(frame.nested)
    ensures Emits(Resources(inner, Some(["index"]), "id", false), frame) == Some([Route("GET", frame.nested + "/" + inner)])
  {
    BelowName(frame.nested, inner);
    OnlyIndex(frame.nested + "/" + inner, "/:id");
    hide ActionRoutes;
    hide Below;
    hide IsNormal;
    assert "/:" + "id" == "/:id";
  }

  lemma ResourceBodyRoutes(act: string, col: string, inner: string, frame: Frame)
    requires IsName(act) && IsName(col) && IsName(inner) && act[0] != ':' && col[0] != ':'
    requires IsBase(frame.nested) && IsBase(frame.collection) && IsBase(frame.member)
    ensures Meaning(ResourceBody(act, col, inner), frame) ==
      Some([Route("POST", frame.member + "/" + act), Route("GET", frame.collection + "/" + col),
            Route("GET", frame.nested + "/" + inner)])
    ensures Lines(ResourceBody(act, col, inner)) ==
      [MemberBlock, Direct("POST", ":" + act), End, CollectionBlock, Direct("GET", "/" + col), End,
       Resources(inner, Some(["index"]), "id", false)]
  {
    var index := Resources(inner, Some(["index"]), "id", false);
    var last := Single(index, Empty);
    var collection := Block(CollectionBlock, Single(Direct("GET", "/" + col), Empty), last);
    var member := Block(MemberBlock, Single(Direct("POST", ":" + act), Empty), collection);
    assert ResourceBody(act, col, inner) == member;
    var r0, r1, r2 := Route("POST", frame.member + "/" + act), Route("GET", frame.collection + "/" + col),
                      Route("GET", frame.nested + "/" + inner);
    BlocksEmitNothing(frame);
    DirectRoute("POST", frame.member, act, FrameInside(MemberBlock, frame));
    DirectRoute("GET", frame.collection, col, FrameInside(CollectionBlock, frame));
    InnerIndex(inner, frame);
    SingleMeaning(index, Empty, frame);
    hide *;
    JoinOf([r2], []);
    assert [r2] + [] == [r2] && [r1] + [r2] == [r1, r2] && [r0] + [r1, r2] == [r0, r1, r2];
    OneLineBlock(CollectionBlock, Direct("GET", "/" + col), last, frame, [r1]);
    JoinOf([r1], [r2]);
    OneLineBlock(MemberBlock, Direct("POST", ":" + act), collection, frame, [r0]);
    JoinOf([r0], [r1, r2]);
    BodyLines(Direct("POST", ":" + act), Direct("GET", "/" + col), index);
  }

  lemma BodyLines(a: Line, b: Line, c: Line)
    ensures [c] + [] == [c] && [CollectionBlock, b, End] + [c] == [CollectionBlock, b, End, c]
    ensures [MemberBlock, a, End] + [CollectionBlock, b, End, c] == [MemberBlock, a, End, CollectionBlock, b, End, c]
  {
  }

  /** A namespace opens below the root, and a resource in it has its frame there. */
  lemma NamespaceFrames(ns: string, name: string)
    requires IsName(ns) && IsName(name)
    ensures var p, base := "/" + ns, "/" + ns + "/" + name;
      && FrameInside(Namespace(ns), ROOT) == Frame(p, p, p) && Emits(Namespace(ns), ROOT) == Some([])
      && FrameInside(Resources(name, None, "id", true), Frame(p, p, p)) ==
           Frame(base + "/:" + NestedParam(name, "id"), base, base + "/:id")
      && Emits(Resources(name, None, "id", true), Frame(p, p, p)) == ActionRoutes(PLURAL_ACTIONS, true, base, "/:id")
      && IsBase(base) && IsBase(base + "/:id") && IsBase(base + "/:" + NestedParam(name, "id"))
  {
    var base := "/" + ns + "/" + name;
    BelowName("", ns);
    assert "" + "/" + ns == "/" + ns;
    BelowName("/" + ns, name);
    NestedParamIsName(name);
    BelowParam(base, "id");
    BelowParam(base, NestedParam(name, "id"));
    assert "/:" + "id" == "/:id";
    hide NestedParam;
    hide Below;
    hide NormalizePath;
    hide ActionRoutes;
    hide IsNormal;
    assert base + "/:" + "id" == base + "/:id";
  }

  lemma TwoBlocksAround(a: Line, b: Line, body: seq<Line>)
    ensures [a] + ([b] + (body + ([End] + [])) + ([End] + [])) == [a, b] + body + [End, End]
  {
  }

  lemma OwnThenInner(own: seq<Route>, inner: seq<Route>)
    ensures Join(Some([]), Join(Join(Some(own), Join(Some(inner), Some([]))), Some([]))) == Some(own + inner)
  {
    assert inner + [] == inner && own + inner + [] == own + inner && [] + (own + inner) == own + inner;
  }

  lemma NestedFile(ns: string, name: string, body: Forest, own: seq<Route>, inner: seq<Route>)
    requires WellNested(body)
    requires Emits(Namespace(ns), ROOT) == Some([])
    requires Emits(Resources(name, None, "id", true), FrameInside(Namespace(ns), ROOT)) == Some(own)
    requires Meaning(body, FrameInside(Resources(name, None, "id", true), FrameInside(Namespace(ns), ROOT))) == Some(inner)
    ensures Run(State([ROOT], []), [Namespace(ns), Resources(name, None, "id", true)] + Lines(body) + [End, End]) ==
            Some(State([ROOT], own + inner))
  {
    var resources, outside := Resources(name, None, "id", true), FrameInside(Namespace(ns), ROOT);
    var block := Block(resources, body, Empty);
    var file := Block(Namespace(ns), block, Empty);
    BlockMeaning(Namespace(ns), block, Empty, ROOT);
    BlockMeaning(resources, body, Empty, outside);
    SingleMeaning(End, Empty, ROOT);
    SingleMeaning(End, Empty, outside);
    NestsWell(ns, name, body);
    ParsedFileIsMeaning(file);
    OwnThenInner(own, inner);
    TwoBlocksAround(Namespace(ns), resources, Lines(body));
    hide *;
  }

  lemma NestsWell(ns: string, name: string, body: Forest)
    requires WellNested(body)
    ensures WellNested(Block(Namespace(ns), Block(Resources(name, None, "id", true), body, Empty), Empty))
  {
    var inner := Block(Resources(name, None, "id", true), body, Empty);
    assert WellNested(Empty);
    assert WellNested(inner);
  }

  /**
   For all names: a namespace with a block of resources, a member route, a collection route and nested resources in it
   has these routes.
   */
  lemma NestedResourceRoutes(ns: string, name: string, act: string, col: string, inner: string)
    requires IsName(ns) && IsName(name) && IsName(act) && IsName(col) && IsName(inner) && act[0] != ':' && col[0] != ':'
    ensures var base := "/" + ns + "/" + name;
      var one := base + "/:id";
      Run(State([Frame("", "", "")], []),
          [Namespace(ns), Resources(name, None, "id", true), MemberBlock, Direct("POST", ":" + act), End,
           CollectionBlock, Direct("GET", "/" + col), End, Resources(inner, Some(["index"]), "id", false), End, End]) ==
      Some(State([Frame("", "", "")],
        [Route("GET", base), Route("GET", one), Route("POST", base), Route("PUT", one), Route("PATCH", one),
         Route("DELETE", one), Route("POST", one + "/" + act), Route("GET", base + "/" + col),
         Route("GET", base + "/:" + NestedParam(name, "id") + "/" + inner)]))
  {
    var base := "/" + ns + "/" + name;
    var one, deep := base + "/:id", base + "/:" + NestedParam(name, "id");
    var own := [Route("GET", base), Route("GET", one), Route("POST", base), Route("PUT", one), Route("PATCH", one),
                Route("DELETE", one)];
    var found := [Route("POST", one + "/" + act), Route("GET", base + "/" + col), Route("GET", deep + "/" + inner)];
    NamespaceFrames(ns, name);
    assert IsName("id");
    PluralRoutes(base, "id");
    WellNestedBody(act, col, inner);
    assert "/:" + "id" == "/:id" && base + "/:" + "id" == one;
    hide *;
    ResourceBodyRoutes(act, col, inner, Frame(deep, base, one));
    NestedFile(ns, name, ResourceBody(act, col, inner), own, found);
    SixAndThree(own[0], own[1], own[2], own[3], own[4], own[5], found[0], found[1], found[2]);
    WholeFile(Namespace(ns), Resources(name, None, "id", true), Direct("POST", ":" + act), Direct("GET", "/" + col),
              Resources(inner, Some(["index"]), "id", false));
  }

  lemma SixAndThree<T>(a: T, b: T, c: T, d: T, e: T, f: T, g: T, h: T, i: T)
    ensures [a, b, c, d, e, f] + [g, h, i] == [a, b, c, d, e, f, g, h, i]
  {
  }

  lemma WholeFile(ns: Line, r: Line, a: Line, b: Line, c: Line)
    ensures [ns, r] + [MemberBlock, a, End, CollectionBlock, b, End, c] + [End, End]
            == [ns, r, MemberBlock, a, End, CollectionBlock, b, End, c, End, End]
  {
  }

  lemma WellNestedBody(act: string, col: string, inner: string)
    ensures WellNested(ResourceBody(act, col, inner))
  {
    var last := Single(Resources(inner, Some(["index"]), "id", false), Empty);
    var collection := Block(CollectionBlock, Single(Direct("GET", "/" + col), Empty), last);
    assert WellNested(Empty);
    assert WellNested(last);
    assert WellNested(Single(Direct("GET", "/" + col), Empty));
    assert WellNested(collection);
    assert WellNested(Single(Direct("POST", ":" + act), Empty));
  }

  lemma NestedParamIsName(name: string)
    requires IsName(name)
    ensures IsName(NestedParam(name, "id"))
  {
    var p := NestedParam(name, "id");
    var n := |p| - 3;
    assert p[n..] == "_id";
    forall i | 0 <= i < |p|
      ensures p[i] != '/'
    {
      if i >= n {
        assert p[i] == p[n..][i - n];
      }
    }
  }
}
