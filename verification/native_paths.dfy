/**
 * The paths the native writers build, and the guard every bundle passes before
 * it is stored. A character is a Unicode scalar value; SHA-256 is a parameter
 * that gives 64 hexadecimal digits.
 */
module NativePaths {
  import opened Wrappers
  import Text

  const MAX_WORKSPACE_COMPONENT := 180
  const DIGEST_PREFIX := 12
  const MAX_COMPONENT_BYTES := 255

  // ---------------------------------------------------------------- strings

  /** `Buffer.byteLength(text, "utf8")` */
  function ByteLength(text: string): nat
  {
    if text == "" then 0
    else Utf8Size(text[0]) + ByteLength(text[1..])
  }

  function Utf8Size(c: char): nat
  {
    var n := c as int;
    if n < 0x80 then 1 else if n < 0x800 then 2 else if n < 0x10000 then 3 else 4
  }

  /** `text.split("/")` */
  function Split(text: string): (parts: seq<string>)
    ensures |parts| >= 1
  {
    if text == "" then [""]
    else
      var rest := Split(text[1..]);
      if text[0] == '/' then [""] + rest else [[text[0]] + rest[0]] + rest[1..]
  }

  /** `text.includes(part)` */
  predicate Contains(text: string, part: string)
  {
    exists i :: 0 <= i <= |text| && PartAt(text, part, i)
  }

  predicate PartAt(text: string, part: string, i: nat)
  {
    i + |part| <= |text| && text[i..i + |part|] == part
  }

  lemma ContainsExact(text: string, part: string)
    ensures Contains(text, part) <==> exists before, after :: text == before + part + after
  {
    if Contains(text, part) {
      var i :| 0 <= i <= |text| && PartAt(text, part, i);
      assert text == text[..i] + part + text[i + |part|..];
    }
    if before, after :| text == before + part + after {
      assert PartAt(text, part, |before|);
    }
  }

  lemma OnlyPart(part: string)
    ensures Text.Join([part], '/') == part
  {
  }

  lemma {:induction false} JoinFirst(first: string, rest: seq<string>)
    requires rest != []
    ensures Text.Join([first] + rest, '/') == first + ['/'] + Text.Join(rest, '/')
  {
    assert ([first] + rest)[1..] == rest;
  }

  lemma Regroup(a: string, b: string, c: string, d: string)
    ensures a + b + c + d == a + (b + c + d)
  {
  }

  lemma {:induction false} JoinLonger(start: string, first: string, rest: seq<string>)
    ensures Text.Join([start + first] + rest, '/') == start + Text.Join([first] + rest, '/')
  {
    hide Text.Join;
    if rest == [] {
      OnlyPart(first);
      OnlyPart(start + first);
      assert [first] + rest == [first] && [start + first] + rest == [start + first];
    } else {
      JoinFirst(first, rest);
      JoinFirst(start + first, rest);
      Regroup(start, first, ['/'], Text.Join(rest, '/'));
    }
  }

  /** What splitting gives has no separator in it, and joins back to the text. */
  lemma {:induction false} SplitExact(text: string)
    ensures Text.Join(Split(text), '/') == text
    ensures forall part :: part in Split(text) ==> NoSlash(part)
  {
    hide Text.Join;
    if text == "" {
      OnlyPart("");
    } else {
      SplitExact(text[1..]);
      var rest := Split(text[1..]);
      assert [text[0]] + text[1..] == text;
      assert rest[0] in rest;
      if text[0] == '/' {
        JoinFirst("", rest);
        assert "" + ['/'] + text[1..] == text;
      } else {
        JoinLonger([text[0]], rest[0], rest[1..]);
        assert rest == [rest[0]] + rest[1..];
        assert NoSlash([text[0]] + rest[0]);
      }
    }
  }

  /** The four lengths of a character in UTF-8, on either side of where they change. */
  lemma Utf8Boundaries()
    ensures Utf8Size('\U{7F}') == 1 && Utf8Size('\U{80}') == 2 && Utf8Size('\U{7FF}') == 2
    ensures Utf8Size('\U{800}') == 3 && Utf8Size('\U{FFFF}') == 3 && Utf8Size('\U{10000}') == 4 && Utf8Size('\U{10FFFF}') == 4
  {
  }

  lemma {:induction false} BytesAdd(a: string, b: string)
    ensures ByteLength(a + b) == ByteLength(a) + ByteLength(b)
  {
    if a == "" {
      assert a + b == b;
    } else {
      assert (a + b)[1..] == a[1..] + b;
      BytesAdd(a[1..], b);
    }
  }

  predicate Ascii(text: string) { forall i :: 0 <= i < |text| ==> text[i] as int < 0x80 }

  predicate NoSlash(text: string) { forall i :: 0 <= i < |text| ==> text[i] != '/' }

  lemma {:induction false} AsciiBytes(text: string)
    requires Ascii(text)
    ensures ByteLength(text) == |text|
  {
    if text != "" {
      assert text[0] as int < 0x80;
      assert Utf8Size(text[0]) == 1;
      AsciiBytes(text[1..]);
      assert ByteLength(text[1..]) == |text| - 1;
      assert ByteLength(text) == Utf8Size(text[0]) + ByteLength(text[1..]);
      assert |text| == 1 + |text[1..]|;
    } else {
      assert ByteLength("") == 0;
    }
  }

  lemma {:induction false} SplitPlain(text: string)
    requires NoSlash(text)
    ensures Split(text) == [text]
  {
    if text != "" {
      SplitPlain(text[1..]);
      assert Split(text[1..])[1..] == [] && [text[0]] + text[1..] == text;
    }
  }

  lemma {:induction false} SplitJoin(a: string, b: string)
    requires NoSlash(a)
    ensures Split(a + "/" + b) == [a] + Split(b)
  {
    if a == "" {
      assert a + "/" + b == "/" + b;
      assert ("/" + b)[1..] == b;
    } else {
      var text := a + "/" + b;
      SplitJoin(a[1..], b);
      assert text[1..] == a[1..] + "/" + b && text[0] == a[0] != '/';
      var rest := Split(text[1..]);
      assert rest[0] == a[1..] && rest[1..] == Split(b);
      assert [a[0]] + a[1..] == a;
    }
  }

  lemma ContainsMiddle(before: string, part: string, after: string)
    ensures Contains(before + part + after, part)
  {
    var text := before + part + after;
    assert PartAt(text, part, |before|);
  }

  // ---------------------------------------------------------------- the guard

  datatype Target = ClaudeCode | Codex | AntigravityCli | Pasted(name: string)

  datatype Refusal =
    | OutsideTarget(path: string)
    | MissingSessionId(path: string)
    | NotNormal(path: string)
    | ComponentTooLong(size: nat, path: string)

  function ClaudePrefix(): string { ".claude" + "/" + "projects" + "/" }

  function CodexPrefix(): string { ".codex" + "/" + "sessions" + "/" }

  function BrainPrefix(): string { ".gemini" + "/" + "antigravity-cli" + "/" + "brain" + "/" }

  function TargetPrefix(target: Target): Option<string>
  {
    match target
    case ClaudeCode => Some(ClaudePrefix())
    case Codex => Some(CodexPrefix())
    case AntigravityCli => Some(BrainPrefix())
    case Pasted(_) => None
  }

  function CheckComponents(components: seq<string>, path: string): Option<Refusal>
  {
    if components == [] then None
    else
      var c := components[0];
      if c == "" || c == "." || c == ".." then Some(NotNormal(path))
      else if ByteLength(c) > MAX_COMPONENT_BYTES then Some(ComponentTooLong(ByteLength(c), path))
      else CheckComponents(components[1..], path)
  }

  function CheckPath(prefix: string, sessionId: string, path: string): Option<Refusal>
  {
    if !("~/" <= path) || !(prefix <= path[2..]) then Some(OutsideTarget(path))
    else if !Contains(path[2..], sessionId) then Some(MissingSessionId(path))
    else CheckComponents(Split(path[2..]), path)
  }

  function CheckPaths(prefix: string, sessionId: string, paths: seq<string>): Option<Refusal>
  {
    if paths == [] then None
    else
      var first := CheckPath(prefix, sessionId, paths[0]);
      if first.Some? then first else CheckPaths(prefix, sessionId, paths[1..])
  }

  function AssertMaterializablePaths(target: Target, sessionId: string, paths: seq<string>): Option<Refusal>
  {
    var prefix := TargetPrefix(target);
    if prefix.None? then None else CheckPaths(prefix.value, sessionId, paths)
  }

  predicate NormalComponent(c: string)
  {
    c != "" && c != "." && c != ".." && ByteLength(c) <= 255
  }

  /** What a machine will accept: under the target's directory, naming the session, every component normal. */
  ghost predicate Materializable(prefix: string, sessionId: string, path: string)
  {
    && "~/" + prefix <= path
    && (exists before, after :: path[2..] == before + sessionId + after)
    && forall c :: c in Split(path[2..]) ==> NormalComponent(c)
  }

  lemma {:induction false} ComponentsExact(components: seq<string>, path: string)
    ensures CheckComponents(components, path).None? <==> forall c :: c in components ==> NormalComponent(c)
  {
    hide ByteLength;
    if components != [] {
      assert components == [components[0]] + components[1..];
      ComponentsExact(components[1..], path);
      assert NormalComponent(components[0]) ==> CheckComponents(components, path) == CheckComponents(components[1..], path);
    }
  }

  lemma PathExact(prefix: string, sessionId: string, path: string)
    ensures CheckPath(prefix, sessionId, path).None? <==> Materializable(prefix, sessionId, path)
  {
    if "~/" <= path {
      ContainsExact(path[2..], sessionId);
      ComponentsExact(Split(path[2..]), path);
      assert prefix <= path[2..] ==> "~/" + prefix <= path;
      assert "~/" + prefix <= path ==> ("~/" + prefix)[2..] <= path[2..];
      assert ("~/" + prefix)[2..] == prefix;
    }
  }

  /** The guard lets a bundle through exactly when every path of it is materializable. */
  lemma {:induction false} GuardExact(prefix: string, sessionId: string, paths: seq<string>)
    ensures CheckPaths(prefix, sessionId, paths).None? <==> forall p :: p in paths ==> Materializable(prefix, sessionId, p)
  {
    if paths != [] {
      PathExact(prefix, sessionId, paths[0]);
      GuardExact(prefix, sessionId, paths[1..]);
      assert paths == [paths[0]] + paths[1..];
    }
  }

  // ---------------------------------------------------------------- the workspace name

  predicate Safe(c: char)
  {
    'A' <= c <= 'Z' || 'a' <= c <= 'z' || '0' <= c <= '9' || c == '.' || c == '_' || c == '-'
  }

  function Encoded(workspace: string): (r: string)
    ensures |r| == |workspace|
    ensures forall i :: 0 <= i < |r| ==> r[i] == if Safe(workspace[i]) then workspace[i] else '-'
  {
    seq(|workspace|, i requires 0 <= i < |workspace| => if Safe(workspace[i]) then workspace[i] else '-')
  }

  predicate HexDigest(digest: string)
  {
    |digest| == 64 && forall i :: 0 <= i < |digest| ==> '0' <= digest[i] <= '9' || 'a' <= digest[i] <= 'f'
  }

  function EncodeClaudeWorkspace(workspace: string, sha256: string -> string): string
    requires HexDigest(sha256(workspace))
  {
    var encoded := Encoded(workspace);
    if |encoded| == 0 then "memoar-imports"
    else if |encoded| <= MAX_WORKSPACE_COMPONENT then encoded
    else sha256(workspace)[..DIGEST_PREFIX] + "-" + encoded[|encoded| - (MAX_WORKSPACE_COMPONENT - DIGEST_PREFIX - 1)..]
  }

  /** Every name is one component of at most 180 bytes, and normal unless the workspace is `.` or `..` itself. */
  lemma WorkspaceNameExact(workspace: string, sha256: string -> string)
    requires HexDigest(sha256(workspace))
    ensures var name := EncodeClaudeWorkspace(workspace, sha256);
      && NoSlash(name) && Ascii(name) && ByteLength(name) == |name| <= MAX_WORKSPACE_COMPONENT
      && (NormalComponent(name) <==> workspace != "." && workspace != "..")
  {
    var name := EncodeClaudeWorkspace(workspace, sha256);
    forall i | 0 <= i < |name| ensures Safe(name[i]) {
    }
    AsciiBytes(name);
    if |workspace| > MAX_WORKSPACE_COMPONENT {
      assert |name| == MAX_WORKSPACE_COMPONENT;
    }
    if |workspace| == 1 {
      assert workspace == [workspace[0]] && name == [name[0]];
    } else if |workspace| == 2 {
      assert workspace == [workspace[0], workspace[1]] && name == [name[0], name[1]];
    }
  }

  /** Two long workspaces with different digest prefixes never share a directory, whatever tail they share. */
  lemma LongNamesApart(a: string, b: string, sha256: string -> string)
    requires HexDigest(sha256(a)) && HexDigest(sha256(b))
    requires |a| > MAX_WORKSPACE_COMPONENT && |b| > MAX_WORKSPACE_COMPONENT
    requires sha256(a)[..DIGEST_PREFIX] != sha256(b)[..DIGEST_PREFIX]
    ensures EncodeClaudeWorkspace(a, sha256) != EncodeClaudeWorkspace(b, sha256)
  {
    assert EncodeClaudeWorkspace(a, sha256)[..DIGEST_PREFIX] == sha256(a)[..DIGEST_PREFIX];
    assert EncodeClaudeWorkspace(b, sha256)[..DIGEST_PREFIX] == sha256(b)[..DIGEST_PREFIX];
  }

  // ---------------------------------------------------------------- the writers

  /** As a UUID prints: 36 characters, hexadecimal digits and hyphens. */
  predicate Uuid(id: string)
  {
    |id| == 36 && forall i :: 0 <= i < |id| ==> '0' <= id[i] <= '9' || 'a' <= id[i] <= 'f' || id[i] == '-'
  }

  /** A date and a time behind it: `2026-08-01T00:00:00.000Z`. */
  predicate Timestamp(at: string)
  {
    && |at| >= 10 && Ascii(at) && NoSlash(at)
    && (forall i :: 0 <= i < 10 ==> if i == 4 || i == 7 then at[i] == '-' else '0' <= at[i] <= '9')
  }

  function Replace(text: string, from: char, to: char): (r: string)
    ensures |r| == |text| && forall i :: 0 <= i < |r| ==> r[i] == if text[i] == from then to else text[i]
  {
    seq(|text|, i requires 0 <= i < |text| => if text[i] == from then to else text[i])
  }

  function ClaudePath(workspace: string, sha256: string -> string, id: string): string
    requires HexDigest(sha256(workspace))
  {
    "~/" + ClaudePrefix() + (EncodeClaudeWorkspace(workspace, sha256) + "/" + id + Jsonl())
  }

  function CodexPath(createdAt: string, id: string): string
  {
    var date := Replace(if |createdAt| >= 10 then createdAt[..10] else createdAt, '-', '/');
    var stamp := Replace(Replace(createdAt, ':', '-'), '.', '-');
    "~/" + CodexPrefix() + (date + "/" + Rollout(stamp) + id + Jsonl())
  }

  function AntigravityPaths(id: string): seq<string>
  {
    var base := "~/" + BrainPrefix() + id;
    [base + "/" + SystemGenerated() + "/" + Logs() + "/" + Transcript(),
     base + "/" + Conversations() + "/" + (id + ".db"),
     base + "/" + Walkthrough()]
  }

  function Jsonl(): string { ".jsonl" }

  function Rollout(stamp: string): string { "rollout-" + stamp + "-" }

  function SystemGenerated(): string { ".system_generated" }

  function Logs(): string { "logs" }

  function Transcript(): string { "transcript.jsonl" }

  function Conversations(): string { "conversations" }

  function Walkthrough(): string { "walkthrough.md" }

  lemma {:induction false} UuidPlain(id: string)
    requires Uuid(id)
    ensures NoSlash(id) && Ascii(id) && ByteLength(id) == 36 && NormalComponent(id)
  {
    AsciiBytes(id);
  }

  lemma PlainComponent(c: string)
    requires Ascii(c) && 3 <= |c|
    ensures NormalComponent(c) <==> |c| <= MAX_COMPONENT_BYTES
  {
    AsciiBytes(c);
  }

  // ---------------------------------------------------------------- paths by their components

  function Tail(parts: seq<string>): string
  {
    if parts == [] then "" else "/" + parts[0] + Tail(parts[1..])
  }

  lemma {:induction false} SplitTail(first: string, rest: seq<string>)
    requires NoSlash(first) && forall c :: c in rest ==> NoSlash(c)
    ensures Split(first + Tail(rest)) == [first] + rest
    decreases |rest|
  {
    if rest == [] {
      assert first + "" == first;
      SplitPlain(first);
    } else {
      SplitTail(rest[0], rest[1..]);
      assert first + Tail(rest) == first + "/" + (rest[0] + Tail(rest[1..]));
      SplitJoin(first, rest[0] + Tail(rest[1..]));
    }
  }

  lemma Under(prefix: string, rest: string)
    ensures "~/" + prefix <= "~/" + prefix + rest && ("~/" + prefix + rest)[2..] == prefix + rest
  {
  }

  /** Below two directories: the components are those, then what splits off the rest. */
  lemma {:induction false} TwoDeep(d1: string, d2: string, rest: string, prefix: string)
    requires NoSlash(d1) && NoSlash(d2) && prefix == d1 + "/" + d2 + "/"
    ensures Split(prefix + rest) == [d1, d2] + Split(rest)
  {
    assert prefix + rest == d1 + "/" + (d2 + "/" + rest);
    SplitJoin(d1, d2 + "/" + rest);
    SplitJoin(d2, rest);
  }

  lemma {:induction false} ThreeDeep(d1: string, d2: string, d3: string, rest: string, prefix: string)
    requires NoSlash(d1) && NoSlash(d2) && NoSlash(d3) && prefix == d1 + "/" + d2 + "/" + d3 + "/"
    ensures Split(prefix + rest) == [d1, d2, d3] + Split(rest)
  {
    assert prefix + rest == d1 + "/" + (d2 + "/" + (d3 + "/" + rest));
    SplitJoin(d1, d2 + "/" + (d3 + "/" + rest));
    SplitJoin(d2, d3 + "/" + rest);
    SplitJoin(d3, rest);
  }

  /** Below the target's own directories, a path that names the session is judged by its other components. */
  lemma {:induction false} ByComponents(prefix: string, dirs: seq<string>, before: string, id: string, after: string, parts: seq<string>)
    requires Split(prefix + (before + id + after)) == dirs + parts
    requires forall c :: c in dirs ==> NormalComponent(c)
    ensures Materializable(prefix, id, "~/" + prefix + (before + id + after)) <==> forall c :: c in parts ==> NormalComponent(c)
  {
    hide NormalComponent, Split, PartAt;
    Under(prefix, before + id + after);
    assert prefix + (before + id + after) == (prefix + before) + id + after;
    ContainsMiddle(prefix + before, id, after);
    assert forall c :: c in dirs + parts <==> c in dirs || c in parts;
  }

  lemma {:induction false} OnePath(prefix: string, id: string, path: string)
    ensures CheckPaths(prefix, id, [path]).None? <==> Materializable(prefix, id, path)
  {
    hide Materializable, CheckPath;
    GuardExact(prefix, id, [path]);
  }

  // ---------------------------------------------------------------- what the writers build passes

  /** `dirs/name/id.ext`: as normal as its name. */
  lemma ClaudeShape(d1: string, d2: string, prefix: string, name: string, id: string, ext: string)
    requires NoSlash(d1) && NoSlash(d2) && prefix == d1 + "/" + d2 + "/" && NoSlash(name) && NoSlash(id + ext)
    requires NormalComponent(d1) && NormalComponent(d2) && NormalComponent(id + ext)
    ensures Materializable(prefix, id, "~/" + prefix + (name + "/" + id + ext)) <==> NormalComponent(name)
  {
    hide NormalComponent, Materializable;
    var rest := name + "/" + id + ext;
    assert rest == name + "/" + (id + ext);
    TwoDeep(d1, d2, rest, prefix);
    SplitJoin(name, id + ext);
    SplitPlain(id + ext);
    hide Split, NoSlash;
    assert Split(rest) == [name, id + ext];
    ByComponents(prefix, [d1, d2], name + "/", id, ext, [name, id + ext]);
    assert name in [name, id + ext];
  }

  lemma PlainDirectory(d: string)
    requires Ascii(d) && NoSlash(d) && 3 <= |d| <= MAX_COMPONENT_BYTES
    ensures NoSlash(d) && NormalComponent(d)
  {
    PlainComponent(d);
  }

  lemma ClaudeDirs()
    ensures ClaudePrefix() == ".claude" + "/" + "projects" + "/"
  {
  }

  lemma ClaudePlain()
    ensures NoSlash(".claude") && NormalComponent(".claude") && NoSlash("projects") && NormalComponent("projects")
  {
    hide NormalComponent;
    PlainDirectory(".claude");
    PlainDirectory("projects");
  }

  lemma IdFile(lead: string, id: string)
    requires Uuid(id) && NoSlash(lead) && Ascii(lead)
    ensures NoSlash(lead + id + Jsonl()) && (NormalComponent(lead + id + Jsonl()) <==> |lead| <= 213)
  {
    UuidPlain(id);
    PlainComponent(lead + id + Jsonl());
  }

  /** The Claude Code path passes exactly when the workspace is neither `.` nor `..`. */
  lemma ClaudePathExact(workspace: string, sha256: string -> string, id: string)
    requires HexDigest(sha256(workspace)) && Uuid(id)
    ensures AssertMaterializablePaths(ClaudeCode, id, [ClaudePath(workspace, sha256, id)]).None?
      <==> workspace != "." && workspace != ".."
  {
    WorkspaceNameExact(workspace, sha256);
    var name := EncodeClaudeWorkspace(workspace, sha256);
    IdFile("", id);
    assert "" + id + Jsonl() == id + Jsonl();
    OnePath(ClaudePrefix(), id, ClaudePath(workspace, sha256, id));
    hide EncodeClaudeWorkspace, NormalComponent, CheckPaths, Materializable, NoSlash, Jsonl, ClaudePrefix;
    ClaudeDirs();
    ClaudePlain();
    ClaudeShape(".claude", "projects", ClaudePrefix(), name, id, Jsonl());
  }

  /** `dirs/year/month/day/lead-id.ext`: as normal as its last component. */
  lemma CodexShape(d1: string, d2: string, prefix: string, date: seq<string>, lead: string, id: string, ext: string)
    requires NoSlash(d1) && NoSlash(d2) && prefix == d1 + "/" + d2 + "/" && NoSlash(lead + id + ext)
    requires |date| == 3 && forall c :: c in date ==> NormalComponent(c) && NoSlash(c)
    requires NormalComponent(d1) && NormalComponent(d2)
    ensures Materializable(prefix, id, "~/" + prefix + (date[0] + "/" + date[1] + "/" + date[2] + "/" + lead + id + ext))
      <==> NormalComponent(lead + id + ext)
  {
    hide NormalComponent, Materializable;
    var file := lead + id + ext;
    var before := date[0] + "/" + date[1] + "/" + date[2] + "/" + lead;
    var rest := before + id + ext;
    assert rest == date[0] + "/" + (date[1] + "/" + (date[2] + "/" + file));
    TwoDeep(d1, d2, rest, prefix);
    assert date[0] in date && date[1] in date && date[2] in date;
    SplitJoin(date[0], date[1] + "/" + (date[2] + "/" + file));
    SplitJoin(date[1], date[2] + "/" + file);
    SplitJoin(date[2], file);
    SplitPlain(file);
    hide Split, NoSlash;
    assert Split(rest) == date + [file];
    ByComponents(prefix, [d1, d2], before, id, ext, date + [file]);
    assert forall c :: c in date + [file] <==> c in date || c == file;
  }

  lemma CodexDirs()
    ensures CodexPrefix() == ".codex" + "/" + "sessions" + "/"
  {
  }

  lemma CodexPlain()
    ensures NoSlash(".codex") && NormalComponent(".codex") && NoSlash("sessions") && NormalComponent("sessions")
  {
    hide NormalComponent;
    PlainDirectory(".codex");
    PlainDirectory("sessions");
  }

  lemma RolloutPlain(createdAt: string)
    requires Timestamp(createdAt)
    ensures var lead := Rollout(Replace(Replace(createdAt, ':', '-'), '.', '-'));
      NoSlash(lead) && Ascii(lead) && |lead| == |createdAt| + 9
  {
  }

  /** The Codex path passes exactly when its last component fits: a timestamp of at most 204 characters. */
  lemma CodexPathExact(createdAt: string, id: string)
    requires Timestamp(createdAt) && Uuid(id)
    ensures AssertMaterializablePaths(Codex, id, [CodexPath(createdAt, id)]).None? <==> |createdAt| <= 204
  {
    var lead := Rollout(Replace(Replace(createdAt, ':', '-'), '.', '-'));
    var date := [createdAt[..4], createdAt[5..7], createdAt[8..10]];
    RolloutPlain(createdAt);
    IdFile(lead, id);
    DateNormal(createdAt);
    OnePath(CodexPrefix(), id, CodexPath(createdAt, id));
    DateSplits(createdAt);
    hide NormalComponent, CheckPaths, Materializable, NoSlash, Rollout, Jsonl, CodexPrefix, Timestamp, Ascii, Uuid;
    CodexDirs();
    CodexPlain();
    CodexShape(".codex", "sessions", CodexPrefix(), date, lead, id, Jsonl());
  }

  lemma DateSplits(createdAt: string)
    requires Timestamp(createdAt)
    ensures Replace(createdAt[..10], '-', '/') == createdAt[..4] + "/" + createdAt[5..7] + "/" + createdAt[8..10]
  {
  }

  lemma DateNormal(createdAt: string)
    requires Timestamp(createdAt)
    ensures forall c :: c in [createdAt[..4], createdAt[5..7], createdAt[8..10]] ==> NormalComponent(c) && NoSlash(c)
  {
    forall c | c in [createdAt[..4], createdAt[5..7], createdAt[8..10]] ensures NormalComponent(c) && NoSlash(c) {
      AsciiBytes(c);
      assert '0' <= c[0] <= '9';
    }
  }

  /** `dirs/id/rest...`: as normal as the rest. */
  lemma {:induction false} BrainShape(d1: string, d2: string, d3: string, prefix: string, id: string, rest: seq<string>)
    requires NoSlash(d1) && NoSlash(d2) && NoSlash(d3) && NoSlash(id) && prefix == d1 + "/" + d2 + "/" + d3 + "/"
    requires NormalComponent(d1) && NormalComponent(d2) && NormalComponent(d3) && NormalComponent(id)
    requires forall c :: c in rest ==> NormalComponent(c) && NoSlash(c)
    ensures Materializable(prefix, id, "~/" + prefix + ("" + id + Tail(rest)))
  {
    hide NormalComponent, Materializable;
    assert "" + id + Tail(rest) == id + Tail(rest);
    ThreeDeep(d1, d2, d3, id + Tail(rest), prefix);
    SplitTail(id, rest);
    hide Split, NoSlash, Tail;
    ByComponents(prefix, [d1, d2, d3], "", id, Tail(rest), [id] + rest);
  }

  lemma BrainDirs()
    ensures BrainPrefix() == ".gemini" + "/" + "antigravity-cli" + "/" + "brain" + "/"
  {
  }

  lemma BrainPlain()
    ensures NoSlash(".gemini") && NormalComponent(".gemini") && NoSlash("antigravity-cli") && NormalComponent("antigravity-cli")
    ensures NoSlash("brain") && NormalComponent("brain")
  {
    hide NormalComponent;
    PlainDirectory(".gemini");
    PlainDirectory("antigravity-cli");
    PlainDirectory("brain");
  }

  lemma Joined(head: string, id: string, tail: string)
    ensures head + ("" + id + tail) == head + id + tail
  {
  }

  lemma {:induction false} BrainPath(id: string, rest: seq<string>)
    requires Uuid(id)
    requires forall c :: c in rest ==> NormalComponent(c) && NoSlash(c)
    ensures Materializable(BrainPrefix(), id, "~/" + BrainPrefix() + id + Tail(rest))
  {
    UuidPlain(id);
    hide NormalComponent, Materializable, NoSlash, Uuid, Tail, BrainPrefix;
    BrainDirs();
    BrainPlain();
    BrainShape(".gemini", "antigravity-cli", "brain", BrainPrefix(), id, rest);
    Joined("~/" + BrainPrefix(), id, Tail(rest));
  }

  lemma PlainNames(id: string)
    requires Uuid(id)
    ensures NormalComponent(SystemGenerated()) && NoSlash(SystemGenerated()) && NormalComponent(Logs()) && NoSlash(Logs())
    ensures NormalComponent(Transcript()) && NoSlash(Transcript()) && NormalComponent(Conversations()) && NoSlash(Conversations())
    ensures NormalComponent(Walkthrough()) && NoSlash(Walkthrough()) && NormalComponent(id + ".db") && NoSlash(id + ".db")
  {
    hide ByteLength;
    UuidPlain(id);
    PlainComponent(SystemGenerated());
    PlainComponent(Logs());
    PlainComponent(Transcript());
    PlainComponent(Conversations());
    PlainComponent(id + ".db");
    PlainComponent(Walkthrough());
  }

  lemma Tails(base: string, a: string, b: string, c: string)
    ensures base + Tail([a]) == base + "/" + a
    ensures base + Tail([a, b]) == base + "/" + a + "/" + b
    ensures base + Tail([a, b, c]) == base + "/" + a + "/" + b + "/" + c
  {
    assert [a][1..] == [] && [a, b][1..] == [b] && [b][1..] == [] && [a, b, c][1..] == [b, c] && [b, c][1..] == [c] && [c][1..] == [];
    assert Tail([a]) == "/" + a && Tail([b]) == "/" + b && Tail([c]) == "/" + c;
    assert Tail([a, b]) == "/" + a + ("/" + b) && Tail([b, c]) == "/" + b + ("/" + c);
    assert Tail([a, b, c]) == "/" + a + ("/" + b + ("/" + c));
  }

  /** The Antigravity paths always pass. */
  lemma AntigravityPathsPass(id: string)
    requires Uuid(id)
    ensures AssertMaterializablePaths(AntigravityCli, id, AntigravityPaths(id)).None?
  {
    hide Materializable, Tail, NormalComponent, NoSlash, Uuid, CheckPaths, BrainPrefix,
      SystemGenerated, Logs, Transcript, Conversations, Walkthrough;
    var base := "~/" + BrainPrefix() + id;
    PlainNames(id);
    Tails(base, SystemGenerated(), Logs(), Transcript());
    Tails(base, Conversations(), id + ".db", "");
    Tails(base, Walkthrough(), "", "");
    BrainPath(id, [SystemGenerated(), Logs(), Transcript()]);
    BrainPath(id, [Conversations(), id + ".db"]);
    BrainPath(id, [Walkthrough()]);
    GuardExact(BrainPrefix(), id, AntigravityPaths(id));
  }
}
