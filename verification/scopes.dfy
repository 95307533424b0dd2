/** What a credential may be granted, and what an exchanged MCP token may do. */
module Scopes {
  import opened Wrappers

  const PASSWORD_SCOPES: seq<string> := [
    "archive:read", "archive:write", "sharing:write", "keys:write", "machines:write", "ingest:write", "mcp:use"]

  const MACHINE_SCOPES: seq<string> := ["ingest:write", "machine:heartbeat", "materialize:read"]

  const KNOWN_SCOPES: seq<string> := [
    "archive:read", "archive:write", "sharing:write", "keys:write", "machines:write",
    "ingest:write", "machine:heartbeat", "materialize:read", "mcp:use"]

  const WILDCARD := "*"
  const MCP_USE := "mcp:use"
  const IMPLIED_BY_MCP_USE: seq<string> := ["archive:read"]

  /** The scopes of `from` that `keep` lets through, in order. */
  function Filter(from: seq<string>, keep: set<string>): (r: seq<string>)
    ensures forall s :: s in r <==> s in from && s in keep
    ensures |r| <= |from|
  {
    if |from| == 0 then []
    else (if from[0] in keep then [from[0]] else []) + Filter(from[1..], keep)
  }

  function Elements(scopes: seq<string>): set<string> { set s | s in scopes }

  datatype Grant = Granted | UnknownScope(scopes: seq<string>) | Escalation(scopes: seq<string>)

  /** `assertGrantableScopes`: the vocabulary first, then the caller's own grant. */
  function AssertGrantable(requested: seq<string>, held: seq<string>): Grant
  {
    var unknown := Filter(requested, Elements(requested) - Elements(KNOWN_SCOPES));
    if |unknown| > 0 then UnknownScope(unknown)
    else if WILDCARD in held then Granted
    else
      var beyond := Filter(requested, Elements(requested) - Elements(held));
      if |beyond| > 0 then Escalation(beyond) else Granted
  }

  /** A grant is exactly a known request within what the caller holds. */
  lemma GrantExact(requested: seq<string>, held: seq<string>)
    ensures AssertGrantable(requested, held).Granted? <==>
      (forall s :: s in requested ==> s in KNOWN_SCOPES) && (WILDCARD in held || forall s :: s in requested ==> s in held)
    ensures AssertGrantable(requested, held).Granted? ==> WILDCARD !in requested
  {
    hide Filter;
    var unknown := Filter(requested, Elements(requested) - Elements(KNOWN_SCOPES));
    var beyond := Filter(requested, Elements(requested) - Elements(held));
    assert |unknown| == 0 <==> forall s :: s in requested ==> s in KNOWN_SCOPES by {
      assert |unknown| > 0 ==> unknown[0] in unknown;
      assert forall s :: s in requested && s !in KNOWN_SCOPES ==> s in unknown;
    }
    assert |beyond| == 0 <==> forall s :: s in requested ==> s in held by {
      assert |beyond| > 0 ==> beyond[0] in beyond;
      assert forall s :: s in requested && s !in held ==> s in beyond;
    }
    assert WILDCARD !in KNOWN_SCOPES;
  }

  // ---------------------------------------------------------------- the MCP surface

  /** What each tool costs. The table is a parameter: nothing below depends on its rows. */
  type Gates = map<string, seq<string>>

  /** Every scope some gate asks for. */
  ghost predicate Asked(gates: Gates, scope: string)
  {
    exists tool :: tool in gates && scope in gates[tool]
  }

  /** `mcp:use` first, then everything the table asks for, each once. */
  ghost predicate Vocabulary(gates: Gates, vocabulary: seq<string>)
  {
    && |vocabulary| > 0 && vocabulary[0] == MCP_USE
    && forall s :: s in vocabulary <==> s == MCP_USE || Asked(gates, s)
  }

  /** What an exchanged token is given: the part of the vocabulary its key holds. */
  function McpTokenScopes(vocabulary: seq<string>, held: seq<string>): seq<string>
  {
    if WILDCARD in held then vocabulary else Filter(vocabulary, Elements(held))
  }

  datatype Refusal = NotGated | Missing(scopes: seq<string>)

  /** `assertToolScopes`: no refusal means the call goes ahead. */
  function AssertToolScopes(gates: Gates, held: seq<string>, tool: string): Option<Refusal>
  {
    if tool !in gates then Some(NotGated)
    else if WILDCARD in held then None
    else
      var has := Elements(held) + if MCP_USE in held then Elements(IMPLIED_BY_MCP_USE) else {};
      var missing := Filter(gates[tool], Elements(gates[tool]) - has);
      if |missing| == 0 then None else Some(Missing(missing))
  }

  /** What a credential must hold for a tool, spelled out. */
  ghost predicate MayCall(gates: Gates, held: seq<string>, tool: string)
  {
    tool in gates
    && (WILDCARD in held
        || forall s :: s in gates[tool] ==> s in held || (MCP_USE in held && s == "archive:read"))
  }

  lemma ToolScopesExact(gates: Gates, held: seq<string>, tool: string)
    ensures AssertToolScopes(gates, held, tool).None? <==> MayCall(gates, held, tool)
  {
    hide Filter;
    if tool in gates && WILDCARD !in held {
      var has := Elements(held) + if MCP_USE in held then Elements(IMPLIED_BY_MCP_USE) else {};
      var missing := Filter(gates[tool], Elements(gates[tool]) - has);
      assert |missing| > 0 ==> missing[0] in missing;
      assert forall s :: s in gates[tool] && s !in has ==> s in missing;
      assert forall s :: s in has <==> s in held || (MCP_USE in held && s == "archive:read");
    }
  }

  /** The exchange is neither an escalation nor a loss: the token may call exactly what its key may. */
  lemma ExchangeKeepsTools(gates: Gates, vocabulary: seq<string>, held: seq<string>, tool: string)
    requires Vocabulary(gates, vocabulary)
    ensures AssertToolScopes(gates, McpTokenScopes(vocabulary, held), tool).None?
      <==> AssertToolScopes(gates, held, tool).None?
  {
    hide AssertToolScopes;
    var token := McpTokenScopes(vocabulary, held);
    ToolScopesExact(gates, held, tool);
    ToolScopesExact(gates, token, tool);
    if tool in gates {
      assert forall s :: s in gates[tool] ==> Asked(gates, s) && s in vocabulary;
      if WILDCARD !in held {
        assert forall s :: s in token <==> s in vocabulary && s in held;
      }
    }
  }

  /** A token never holds more than its key, and the wildcard only if some gate asks for it by name. */
  lemma ExchangeNarrows(gates: Gates, vocabulary: seq<string>, held: seq<string>)
    requires Vocabulary(gates, vocabulary)
    ensures var token := McpTokenScopes(vocabulary, held);
      && (WILDCARD !in held ==> forall s :: s in token ==> s in held)
      && (MCP_USE in token <==> MCP_USE in held || WILDCARD in held)
      && (WILDCARD in token ==> Asked(gates, WILDCARD))
      && (forall s :: s in token ==> s in vocabulary)
  {
    assert WILDCARD != MCP_USE;
    assert vocabulary[0] in vocabulary;
  }

  // ---------------------------------------------------------------- the shipped table

  const READ: seq<string> := ["mcp:use", "archive:read"]
  const WRITE: seq<string> := ["mcp:use", "archive:write"]

  const READ_TOOLS: set<string> := {
    "search_sessions", "list_sessions", "get_excerpt", "get_session", "pack", "get_memory", "list_machines",
    "list_annotations", "list_collections", "list_collection_sessions", "list_share_links", "list_transfers",
    "export_project_memory", "list_memory_documents", "get_memory_document"}

  const WRITE_TOOLS: set<string> := {
    "save_note", "add_annotation", "create_collection", "add_session_to_collection", "remove_session_from_collection"}

  const MCP_TOOL_GATES: Gates := map tool | tool in READ_TOOLS + WRITE_TOOLS :: if tool in WRITE_TOOLS then WRITE else READ

  const MCP_SCOPE_VOCABULARY: seq<string> := ["mcp:use", "archive:read", "archive:write"]

  lemma ShippedVocabulary()
    ensures Vocabulary(MCP_TOOL_GATES, MCP_SCOPE_VOCABULARY)
    ensures WILDCARD !in MCP_SCOPE_VOCABULARY
  {
    assert "pack" in READ_TOOLS && "pack" !in WRITE_TOOLS && "save_note" in WRITE_TOOLS;
    assert "archive:read" in MCP_TOOL_GATES["pack"] by { assert READ[1] == "archive:read"; }
    assert "archive:write" in MCP_TOOL_GATES["save_note"] by { assert WRITE[1] == "archive:write"; }
    assert MCP_SCOPE_VOCABULARY[1] == "archive:read" && MCP_SCOPE_VOCABULARY[2] == "archive:write";
  }

  /** With no scope but `mcp:use` the open tools are exactly the reading ones. */
  lemma McpUseAloneReads(tool: string)
    ensures AssertToolScopes(MCP_TOOL_GATES, [MCP_USE], tool).None? <==> tool in READ_TOOLS && tool !in WRITE_TOOLS
  {
    ToolScopesExact(MCP_TOOL_GATES, [MCP_USE], tool);
    assert "archive:write" in WRITE by { assert WRITE[1] == "archive:write"; }
    assert forall s :: s in READ ==> s == MCP_USE || s == "archive:read";
  }
}
