/** The self-contained logic of crewctl.py's ConfigurableCrewManager: the
    recursive configuration merge behind `update_config` and the
    `update-prompt` command, the theme listing, how `create_team` builds its
    agents and binds every task to one of them, the `_get_tool` filtering of
    agent tools, and the small Markdown-to-HTML converter.

    The configuration is a JSON value. Loading and saving it, the CrewAI
    objects and the language models are outside the model: an agent or task
    is the record of what the source passes to its constructor. */
module CrewCtl {
  import opened Common

  // ---------------------------------------------------------------------
  // Configuration values and deep_merge

  /** A value decoded by `json.load`. */
  datatype Json = JObject(fields: map<string, Json>) | JString(s: string) | JNumber(n: real)
                | JBool(b: bool) | JNull | JArray(items: seq<Json>)

  predicate BothObjects(target: map<string, Json>, source: map<string, Json>, k: string) {
    k in target && k in source && target[k].JObject? && source[k].JObject?
  }

  /** The dictionary deep_merge(target, source) leaves in `target`. */
  function Merged(target: map<string, Json>, source: map<string, Json>): (r: map<string, Json>)
    ensures r.Keys == target.Keys + source.Keys
    ensures forall k :: k in target && k !in source ==> r[k] == target[k]
    ensures forall k :: k in source && !BothObjects(target, source, k) ==> r[k] == source[k]
    ensures forall k :: BothObjects(target, source, k) ==> r[k] == JObject(Merged(target[k].fields, source[k].fields))
    decreases JObject(source)
  {
    map k | k in target.Keys + source.Keys ::
      if BothObjects(target, source, k) then
        assert source[k] == JObject(source[k].fields);
        JObject(Merged(target[k].fields, source[k].fields))
      else if k in source then source[k]
      else target[k]
  }

  /** deep_merge(target, source): the loop over `source.items()`, recursing
      where both sides hold a dictionary and assigning the source value
      otherwise. Every key is visited once, so the visiting order does not
      matter. */
  method DeepMerge(target: map<string, Json>, source: map<string, Json>) returns (r: map<string, Json>)
    ensures r == Merged(target, source)
    decreases JObject(source)
  {
    r := target;
    var todo := source.Keys;
    while todo != {}
      invariant MergeProgress(target, source, r, todo)
      decreases todo
    {
      var key :| key in todo;
      var value;
      if key in r && r[key].JObject? && source[key].JObject? {
        assert source[key] == JObject(source[key].fields);
        var sub := DeepMerge(r[key].fields, source[key].fields);
        value := JObject(sub);
      } else {
        value := source[key];
      }
      MergeStep(target, source, r, todo, key, value);
      r := r[key := value];
      todo := todo - {key};
    }
    assert forall k :: k in r ==> r[k] == Merged(target, source)[k];
  }

  /** The loop of deep_merge has handled the keys of `source` outside `todo`. */
  ghost predicate MergeProgress(target: map<string, Json>, source: map<string, Json>, r: map<string, Json>, todo: set<string>) {
    todo <= source.Keys
    && r.Keys == target.Keys + (source.Keys - todo)
    && (forall k :: k in target && (k in todo || k !in source) ==> r[k] == target[k])
    && (forall k :: k in source && k !in todo ==> r[k] == Merged(target, source)[k])
  }

  /** One turn of the loop: the key's new value is its merged value. */
  lemma MergeStep(target: map<string, Json>, source: map<string, Json>, r: map<string, Json>, todo: set<string>,
                  key: string, value: Json)
    requires MergeProgress(target, source, r, todo) && key in todo
    requires key in r && r[key].JObject? && source[key].JObject? ==>
      value == JObject(Merged(r[key].fields, source[key].fields))
    requires !(key in r && r[key].JObject? && source[key].JObject?) ==> value == source[key]
    ensures MergeProgress(target, source, r[key := value], todo - {key})
  {
    var merged := Merged(target, source);
    assert key in r <==> key in target;
    if key in r {
      assert r[key] == target[key];
    }
    assert value == merged[key];
    var r', todo' := r[key := value], todo - {key};
    assert r'.Keys == target.Keys + (source.Keys - todo');
    forall k | k in target && (k in todo' || k !in source) ensures r'[k] == target[k] {
      assert k != key;
    }
    forall k | k in source && k !in todo' ensures r'[k] == merged[k] {
      if k != key {
        assert k !in todo;
      }
    }
  }

  /** Merging a dictionary into itself changes nothing. */
  lemma {:induction false} MergeSelf(m: map<string, Json>)
    ensures Merged(m, m) == m
    decreases JObject(m)
  {
    forall k | k in m && m[k].JObject?
      ensures Merged(m[k].fields, m[k].fields) == m[k].fields
    {
      assert m[k] == JObject(m[k].fields);
      MergeSelf(m[k].fields);
    }
    assert forall k :: k in m ==> Merged(m, m)[k] == m[k];
  }

  /** Applying the same update twice is the same as applying it once. */
  lemma {:induction false} MergeIdempotent(target: map<string, Json>, source: map<string, Json>)
    ensures Merged(Merged(target, source), source) == Merged(target, source)
    decreases JObject(source)
  {
    var once := Merged(target, source);
    forall k | k in source && source[k].JObject? && once[k].JObject?
      ensures Merged(once[k].fields, source[k].fields) == once[k].fields
    {
      assert source[k] == JObject(source[k].fields);
      if BothObjects(target, source, k) {
        MergeIdempotent(target[k].fields, source[k].fields);
      } else {
        MergeSelf(source[k].fields);
      }
    }
    assert forall k :: k in once ==> Merged(once, source)[k] == once[k];
  }

  // ---------------------------------------------------------------------
  // update-prompt

  datatype PromptOutcome = AgentNotFound | KeyMissing | Previewed | Updated

  /** The update `update-prompt` hands to update_config. */
  function PromptUpdate(agent: string, prompt: string): map<string, Json> {
    map["agents" := JObject(map[agent := JObject(map["prompt_instructions" := JString(prompt)])])]
  }

  /** The update-prompt merge for an agent whose entry is a dictionary
      replaces that agent's prompt_instructions and nothing else. */
  lemma PromptUpdateOnly(config: map<string, Json>, agent: string, prompt: string)
    requires "agents" in config && config["agents"].JObject?
    requires agent in config["agents"].fields && config["agents"].fields[agent].JObject?
    ensures var agents := config["agents"].fields;
      var entry := agents[agent].fields;
      Merged(config, PromptUpdate(agent, prompt))
        == config["agents" := JObject(agents[agent := JObject(entry["prompt_instructions" := JString(prompt)])])]
  {
    var agents := config["agents"].fields;
    var entry := agents[agent].fields;
    var upEntry := map["prompt_instructions" := JString(prompt)];
    var upAgents := map[agent := JObject(upEntry)];
    MergeOneValue(entry, "prompt_instructions", JString(prompt));
    MergeOneObject(agents, agent, upEntry);
    MergeOneObject(config, "agents", upAgents);
  }

  /** Merging a one-key dictionary whose value is not a dictionary assigns
      that key. */
  lemma MergeOneValue(target: map<string, Json>, key: string, value: Json)
    requires !value.JObject?
    ensures Merged(target, map[key := value]) == target[key := value]
  {
    var r := Merged(target, map[key := value]);
    assert forall k :: k in r ==> r[k] == target[key := value][k];
  }

  /** Merging a one-key dictionary whose value is a dictionary, into a
      target that holds a dictionary under that key, merges the two. */
  lemma MergeOneObject(target: map<string, Json>, key: string, sub: map<string, Json>)
    requires key in target && target[key].JObject?
    ensures Merged(target, map[key := JObject(sub)]) == target[key := JObject(Merged(target[key].fields, sub))]
  {
    var source := map[key := JObject(sub)];
    assert BothObjects(target, source, key);
    var r := Merged(target, source);
    assert forall k :: k in r ==> r[k] == target[key := JObject(Merged(target[key].fields, sub))][k];
  }

  /** The manager object: its configuration dictionary. */
  class CrewManager {
    var config: map<string, Json>

    constructor(config: map<string, Json>)
      ensures this.config == config
    {
      this.config := config;
    }

    /** update_config(updates): the in-place deep merge (the file write
        that follows is not modelled). */
    method UpdateConfig(updates: map<string, Json>)
      modifies this
      ensures config == Merged(old(config), updates)
    {
      config := DeepMerge(config, updates);
    }

    /** list_available_themes: the keys of `topic_themes`, each once; None
        where the lookup raises because the entry is missing or is not a
        dictionary. Python lists them in insertion order, which a map does
        not record. */
    method ListAvailableThemes() returns (r: Option<seq<string>>)
      ensures r.Some? <==> "topic_themes" in config && config["topic_themes"].JObject?
      ensures r.Some? ==> (forall t :: t in r.value <==> t in config["topic_themes"].fields)
                          && |r.value| == |config["topic_themes"].fields.Keys|
    {
      if "topic_themes" !in config || !config["topic_themes"].JObject? {
        return None;
      }
      var themes := config["topic_themes"].fields.Keys;
      var listed: seq<string> := [];
      var rest := themes;
      while rest != {}
        invariant rest <= themes
        invariant forall t :: t in listed <==> t in themes && t !in rest
        invariant |listed| + |rest| == |themes|
        decreases rest
      {
        var t :| t in rest;
        listed := listed + [t];
        rest := rest - {t};
      }
      return Some(listed);
    }

    /** The `update-prompt` command: an unknown agent is reported, reading
        the current prompt raises when the entry has none, a preview changes
        nothing, and otherwise the one-key update is merged in. */
    method UpdatePrompt(agent: string, prompt: string, preview: bool) returns (outcome: PromptOutcome)
      requires "agents" in config && config["agents"].JObject?
      modifies this
      ensures outcome == (if agent !in old(config)["agents"].fields then AgentNotFound
                          else if !(old(config)["agents"].fields[agent].JObject?
                                    && "prompt_instructions" in old(config)["agents"].fields[agent].fields) then KeyMissing
                          else if preview then Previewed else Updated)
      ensures config == if outcome == Updated then Merged(old(config), PromptUpdate(agent, prompt)) else old(config)
    {
      var agents := config["agents"].fields;
      if agent !in agents {
        return AgentNotFound;
      }
      if !(agents[agent].JObject? && "prompt_instructions" in agents[agent].fields) {
        return KeyMissing;
      }
      if preview {
        return Previewed;
      }
      UpdateConfig(PromptUpdate(agent, prompt));
      return Updated;
    }
  }

  // ---------------------------------------------------------------------
  // Agents, tools and teams

  datatype Tool = SearchTool | DallE

  /** `_get_tool`: the two names the tool map knows. */
  function GetTool(name: string): (r: Option<Tool>)
    ensures r.Some? <==> name == "search" || name == "DallETool"
  {
    if name == "search" then Some(SearchTool)
    else if name == "DallETool" then Some(DallE)
    else None
  }

  /** The tools of the known names, in the order they are listed. */
  function KnownTools(names: seq<string>): (r: seq<Tool>)
    ensures |r| <= |names|
  {
    if names == [] then []
    else match GetTool(names[0])
      case Some(t) => [t] + KnownTools(names[1..])
      case None => KnownTools(names[1..])
  }

  /** Every tool an agent gets comes from a name `_get_tool` knows, and an
      agent whose names are all known gets one tool per name. */
  lemma {:induction false} KnownToolsSound(names: seq<string>)
    ensures forall t :: t in KnownTools(names) ==> exists k :: 0 <= k < |names| && GetTool(names[k]) == Some(t)
    ensures (forall k :: 0 <= k < |names| ==> GetTool(names[k]).Some?) ==> |KnownTools(names)| == |names|
    ensures (forall k :: 0 <= k < |names| ==> GetTool(names[k]).None?) ==> KnownTools(names) == []
  {
    if names != [] {
      KnownToolsSound(names[1..]);
      forall t | t in KnownTools(names)
        ensures exists k :: 0 <= k < |names| && GetTool(names[k]) == Some(t)
      {
        if GetTool(names[0]) == Some(t) {
        } else {
          assert t in KnownTools(names[1..]);
          var k :| 0 <= k < |names[1..]| && GetTool(names[1..][k]) == Some(t);
          assert names[1..][k] == names[k + 1];
        }
      }
      if forall k :: 0 <= k < |names| ==> GetTool(names[k]).Some? {
        assert forall k :: 0 <= k < |names[1..]| ==> names[1..][k] == names[k + 1];
      }
      if forall k :: 0 <= k < |names| ==> GetTool(names[k]).None? {
        assert forall k :: 0 <= k < |names[1..]| ==> names[1..][k] == names[k + 1];
      }
    }
  }

  /** The fields of an agent entry that _create_agent reads; `tools`,
      `verbose` and `allowDelegation` are None when the key is absent. */
  datatype AgentConfig = AgentConfig(name: string, role: string, goal: string, backstory: string,
                                     promptInstructions: string, tools: Option<seq<string>>,
                                     verbose: Option<bool>, allowDelegation: Option<bool>, llm: string)

  /** The arguments _create_agent passes to `Agent(..)`. */
  datatype Agent = Agent(key: string, role: string, goal: string, backstory: string, verbose: bool,
                         allowDelegation: bool, tools: seq<Tool>, llm: string)

  /** _create_agent's loop over `agent_config.get("tools", [])`. */
  method AgentTools(names: seq<string>) returns (tools: seq<Tool>)
    ensures tools == KnownTools(names)
  {
    tools := [];
    var i := |names|;
    var suffix: seq<Tool> := [];
    while i > 0
      invariant 0 <= i <= |names|
      invariant suffix == KnownTools(names[i..])
    {
      i := i - 1;
      assert names[i..][1..] == names[i + 1..];
      match GetTool(names[i])
      case Some(t) => suffix := [t] + suffix;
      case None =>
    }
    assert names[0..] == names;
    tools := suffix;
  }

  function ToolNames(c: AgentConfig): seq<string> {
    if c.tools.Some? then c.tools.value else []
  }

  /** _create_agent(agent_key) for an agent entry. */
  function MakeAgent(key: string, c: AgentConfig): (a: Agent)
    ensures a.key == key && a.tools == KnownTools(ToolNames(c))
    ensures a.verbose == (c.verbose != Some(false)) && a.allowDelegation == (c.allowDelegation == Some(true))
    ensures StartsWith(a.backstory, c.backstory) && EndsWith(a.backstory, c.promptInstructions)
  {
    var backstory := c.backstory + "\n\nSpeciella instruktioner: " + c.promptInstructions;
    assert backstory == c.backstory + ("\n\nSpeciella instruktioner: " + c.promptInstructions);
    PrefixStartsWith(c.backstory, "\n\nSpeciella instruktioner: " + c.promptInstructions);
    assert backstory[|backstory| - |c.promptInstructions|..] == c.promptInstructions;
    Agent(key, c.role, c.goal, backstory,
          if c.verbose.Some? then c.verbose.value else true,
          if c.allowDelegation.Some? then c.allowDelegation.value else false,
          KnownTools(ToolNames(c)), c.llm)
  }

  datatype TaskConfig = TaskConfig(description: string, expectedOutput: string, agent: string)
  datatype TeamConfig = TeamConfig(name: string, agents: seq<string>, tasks: seq<TaskConfig>)
  datatype Theme = Theme(focus: string, keywords: seq<string>, tone: string)

  /** The configuration sections create_team reads. */
  datatype CrewConfig = CrewConfig(agents: map<string, AgentConfig>, teams: map<string, TeamConfig>,
                                   themes: map<string, Theme>)

  /** A task as `Task(..)` receives it: its agent is the created agent at
      position `agentIndex` of the crew's agent list. */
  datatype Task = Task(description: string, expectedOutput: string, agentIndex: nat)

  datatype Crew = Crew(agents: seq<Agent>, tasks: seq<Task>)

  /** Where create_team stops with an exception: a missing team, theme or
      agent entry (KeyError), or a task whose agent is not one of the team's
      agents (ValueError from `list.index`). */
  datatype TeamError = UnknownTeam | UnknownTheme | UnknownAgent(key: string) | AgentNotInTeam(key: string)

  datatype TeamResult = Built(crew: Crew) | Failed(error: TeamError)

  /** `list.index`: the first position of `x`. */
  function IndexOf(s: seq<string>, x: string): (i: nat)
    requires x in s
    ensures i < |s| && s[i] == x && x !in s[..i]
  {
    if s[0] == x then 0 else
      assert s[1..][..IndexOf(s[1..], x)] == s[..IndexOf(s[1..], x) + 1][1..];
      1 + IndexOf(s[1..], x)
  }

  /** The task description with the theme appended. */
  function ThemedDescription(description: string, theme: Theme): string {
    description + "\n\nTema-fokus: " + theme.focus + "\nNyckelord: " + Join(theme.keywords, ", ") + "\nTon: " + theme.tone
  }

  predicate AgentsKnown(config: CrewConfig, team: TeamConfig) {
    forall k :: 0 <= k < |team.agents| ==> team.agents[k] in config.agents
  }

  predicate TasksBound(team: TeamConfig) {
    forall k :: 0 <= k < |team.tasks| ==> team.tasks[k].agent in team.agents
  }

  /** The first agent key of the team without a configuration entry. */
  function FirstUnknownAgent(config: CrewConfig, keys: seq<string>): string
    requires exists k :: 0 <= k < |keys| && keys[k] !in config.agents
  {
    if keys[0] !in config.agents then keys[0] else FirstUnknownAgent(config, keys[1..])
  }

  function FirstUnboundTask(tasks: seq<TaskConfig>, agents: seq<string>): string
    requires exists k :: 0 <= k < |tasks| && tasks[k].agent !in agents
  {
    if tasks[0].agent !in agents then tasks[0].agent else FirstUnboundTask(tasks[1..], agents)
  }

  /** The agent loop of create_team. */
  method CreateAgents(config: CrewConfig, keys: seq<string>) returns (r: Option<seq<Agent>>)
    ensures r.Some? <==> forall k :: 0 <= k < |keys| ==> keys[k] in config.agents
    ensures r.Some? ==> |r.value| == |keys|
    ensures r.Some? ==> forall k :: 0 <= k < |keys| ==> r.value[k] == MakeAgent(keys[k], config.agents[keys[k]])
  {
    var agents: seq<Agent> := [];
    for i := 0 to |keys|
      invariant |agents| == i
      invariant forall k :: 0 <= k < i ==> keys[k] in config.agents && agents[k] == MakeAgent(keys[k], config.agents[keys[k]])
    {
      if keys[i] !in config.agents {
        return None;
      }
      agents := agents + [MakeAgent(keys[i], config.agents[keys[i]])];
    }
    return Some(agents);
  }

  /** The task loop of create_team: each task is bound to the agent at the
      position of its agent key in the team's agent list. */
  method CreateTasks(team: TeamConfig, theme: Theme) returns (r: Option<seq<Task>>)
    ensures r.Some? <==> TasksBound(team)
    ensures r.Some? ==> |r.value| == |team.tasks|
    ensures r.Some? ==> forall k :: 0 <= k < |team.tasks| ==>
      team.tasks[k].agent in team.agents
      && r.value[k] == Task(ThemedDescription(team.tasks[k].description, theme), team.tasks[k].expectedOutput,
                                 IndexOf(team.agents, team.tasks[k].agent))
  {
    var tasks: seq<Task> := [];
    for i := 0 to |team.tasks|
      invariant |tasks| == i
      invariant forall k :: 0 <= k < i ==>
        team.tasks[k].agent in team.agents
        && tasks[k] == Task(ThemedDescription(team.tasks[k].description, theme), team.tasks[k].expectedOutput,
                            IndexOf(team.agents, team.tasks[k].agent))
    {
      var t := team.tasks[i];
      if t.agent !in team.agents {
        return None;
      }
      var agentIndex := IndexOf(team.agents, t.agent);
      tasks := tasks + [Task(ThemedDescription(t.description, theme), t.expectedOutput, agentIndex)];
    }
    return Some(tasks);
  }

  /** create_team(team_key, theme). */
  method CreateTeam(config: CrewConfig, teamKey: string, themeKey: string) returns (r: TeamResult)
    ensures teamKey !in config.teams ==> r == Failed(UnknownTeam)
    ensures teamKey in config.teams && themeKey !in config.themes ==> r == Failed(UnknownTheme)
    ensures r.Built? <==> teamKey in config.teams && themeKey in config.themes
                          && AgentsKnown(config, config.teams[teamKey]) && TasksBound(config.teams[teamKey])
    ensures r.Built? ==> var team := config.teams[teamKey];
      |r.crew.agents| == |team.agents| && |r.crew.tasks| == |team.tasks|
      && (forall k :: 0 <= k < |team.agents| ==> r.crew.agents[k] == MakeAgent(team.agents[k], config.agents[team.agents[k]]))
      && (forall k :: 0 <= k < |team.tasks| ==>
            r.crew.tasks[k].agentIndex < |r.crew.agents|
            && r.crew.agents[r.crew.tasks[k].agentIndex].key == team.tasks[k].agent
            && r.crew.tasks[k].description == ThemedDescription(team.tasks[k].description, config.themes[themeKey]))
  {
    if teamKey !in config.teams {
      return Failed(UnknownTeam);
    }
    if themeKey !in config.themes {
      return Failed(UnknownTheme);
    }
    var team := config.teams[teamKey];
    var agents := CreateAgents(config, team.agents);
    if agents.None? {
      return Failed(UnknownAgent(FirstUnknownAgent(config, team.agents)));
    }
    var tasks := CreateTasks(team, config.themes[themeKey]);
    if tasks.None? {
      return Failed(AgentNotInTeam(FirstUnboundTask(team.tasks, team.agents)));
    }
    return Built(Crew(agents.value, tasks.value));
  }

  // ---------------------------------------------------------------------
  // _markdown_to_html

  /** `s.split('\n')`. */
  function Lines(s: string): (r: seq<string>)
    ensures |r| >= 1
    ensures forall k :: 0 <= k < |r| ==> '\n' !in r[k]
    decreases |s|
  {
    if '\n' !in s then [s]
    else
      var i := NewlineAt(s);
      [s[..i]] + Lines(s[i + 1..])
  }

  /** The position of the first newline. */
  function NewlineAt(s: string): (i: nat)
    requires '\n' in s
    ensures i < |s| && s[i] == '\n' && '\n' !in s[..i]
  {
    if s[0] == '\n' then 0 else
      assert s[1..][..NewlineAt(s[1..])] == s[..NewlineAt(s[1..]) + 1][1..];
      1 + NewlineAt(s[1..])
  }

  lemma {:induction false} NewlineAtFirst(a: string, b: string)
    requires '\n' !in a
    ensures '\n' in a + ("\n" + b) && NewlineAt(a + ("\n" + b)) == |a|
  {
    var s := a + ("\n" + b);
    assert s[|a|] == '\n';
    if a != [] {
      assert s[1..] == a[1..] + ("\n" + b);
      NewlineAtFirst(a[1..], b);
    }
  }

  /** Splitting a newline-joined list of lines recovers the lines. */
  lemma {:induction false} LinesOfJoin(ls: seq<string>)
    requires |ls| >= 1 && forall k :: 0 <= k < |ls| ==> '\n' !in ls[k]
    ensures Lines(Join(ls, "\n")) == ls
  {
    var s := Join(ls, "\n");
    if |ls| == 1 {
      assert s == ls[0];
    } else {
      var tail := ls[1..];
      var rest := Join(tail, "\n");
      assert s == ls[0] + ("\n" + rest);
      NewlineAtFirst(ls[0], rest);
      var i := |ls[0]|;
      assert s[..i] == ls[0];
      assert s[i + 1..] == rest;
      assert Lines(s) == [ls[0]] + Lines(rest);
      assert forall k :: 0 <= k < |tail| ==> tail[k] == ls[k + 1];
      LinesOfJoin(tail);
      assert ls == [ls[0]] + tail;
    }
  }

  /** Joining the pieces of a split restores the text. */
  lemma {:induction false} JoinOfLines(s: string)
    ensures Join(Lines(s), "\n") == s
    decreases |s|
  {
    if '\n' in s {
      var i := NewlineAt(s);
      var rest := s[i + 1..];
      LinesCons(s);
      JoinCons(s[..i], Lines(rest), "\n");
      JoinOfLines(rest);
      SplitAround(s, i);
    }
  }

  lemma LinesCons(s: string)
    requires '\n' in s
    ensures var i := NewlineAt(s); Lines(s) == [s[..i]] + Lines(s[i + 1..])
  {
  }

  lemma JoinCons(x: string, rest: seq<string>, sep: string)
    requires |rest| >= 1
    ensures Join([x] + rest, sep) == x + sep + Join(rest, sep)
  {
    assert ([x] + rest)[1..] == rest;
  }

  lemma SplitAround(s: string, i: nat)
    requires i < |s| && s[i] == '\n'
    ensures s == s[..i] + "\n" + s[i + 1..]
  {
  }

  /** One `re.sub(r'^<marks> (.*$)', r'<hN>\1</hN>', html, flags=re.MULTILINE)`
      on one line; `prefix` is the marks and the space. */
  function HeadingLine(prefix: string, tag: string, line: string): (r: string)
    ensures '\n' !in line && '\n' !in tag ==> '\n' !in r
  {
    if StartsWith(line, prefix) then "<" + tag + ">" + line[|prefix|..] + "</" + tag + ">" else line
  }

  function MapHeading(prefix: string, tag: string, ls: seq<string>): (r: seq<string>)
    ensures |r| == |ls|
    ensures forall k :: 0 <= k < |ls| ==> r[k] == HeadingLine(prefix, tag, ls[k])
  {
    seq(|ls|, k requires 0 <= k < |ls| => HeadingLine(prefix, tag, ls[k]))
  }

  /** One heading pass over the whole text: `^` and `$` anchor at every line,
      and `.` does not cross a newline, so each line is rewritten alone. */
  function HeadingPass(prefix: string, tag: string, s: string): string {
    Join(MapHeading(prefix, tag, Lines(s)), "\n")
  }

  /** What the three heading passes do to one line. */
  function Heading(line: string): string {
    if StartsWith(line, "# ") then "<h1>" + line[2..] + "</h1>"
    else if StartsWith(line, "## ") then "<h2>" + line[3..] + "</h2>"
    else if StartsWith(line, "### ") then "<h3>" + line[4..] + "</h3>"
    else line
  }

  function Headings(s: string): string {
    HeadingPass("### ", "h3", HeadingPass("## ", "h2", HeadingPass("# ", "h1", s)))
  }

  lemma FirstCharDiffers(x: string, p: string)
    requires x != [] && p != [] && x[0] != p[0]
    ensures !StartsWith(x, p)
  {
    if |p| <= |x| {
      assert x[..|p|][0] == x[0];
    }
  }

  lemma SecondCharDiffers(x: string, p: string)
    requires |x| >= 2 && |p| >= 2 && x[1] != p[1]
    ensures !StartsWith(x, p)
  {
    if |p| <= |x| {
      assert x[..|p|][1] == x[1];
    }
  }

  lemma ThirdCharDiffers(x: string, p: string)
    requires |x| >= 3 && |p| >= 3 && x[2] != p[2]
    ensures !StartsWith(x, p)
  {
    if |p| <= |x| {
      assert x[..|p|][2] == x[2];
    }
  }

  /** A rewritten line starts with '<', so the later passes keep it. */
  lemma TagLineKept(prefix: string, tag: string, x: string)
    requires prefix != [] && prefix[0] == '#' && x != [] && x[0] == '<'
    ensures HeadingLine(prefix, tag, x) == x
  {
    FirstCharDiffers(x, prefix);
  }

  /** The element a heading pass makes of a line that has the prefix. */
  lemma Wrapped(prefix: string, tag: string, line: string)
    requires StartsWith(line, prefix)
    ensures HeadingLine(prefix, tag, line) == "<" + tag + ">" + line[|prefix|..] + "</" + tag + ">"
    ensures HeadingLine(prefix, tag, line)[0] == '<'
  {
  }

  function ThreePasses(line: string): string {
    HeadingLine("### ", "h3", HeadingLine("## ", "h2", HeadingLine("# ", "h1", line)))
  }

  lemma H1Line(line: string)
    requires StartsWith(line, "# ")
    ensures ThreePasses(line) == "<h1>" + line[2..] + "</h1>"
  {
    var l1 := HeadingLine("# ", "h1", line);
    Wrapped("# ", "h1", line);
    TagLineKept("## ", "h2", l1);
    TagLineKept("### ", "h3", l1);
    assert "<" + "h1" + ">" == "<h1>" && "</" + "h1" + ">" == "</h1>";
  }

  lemma H2Line(line: string)
    requires StartsWith(line, "## ")
    ensures ThreePasses(line) == "<h2>" + line[3..] + "</h2>"
  {
    assert line[..3][1] == line[1];
    SecondCharDiffers(line, "# ");
    var l2 := HeadingLine("## ", "h2", line);
    Wrapped("## ", "h2", line);
    TagLineKept("### ", "h3", l2);
    assert "<" + "h2" + ">" == "<h2>" && "</" + "h2" + ">" == "</h2>";
  }

  lemma H3Line(line: string)
    requires StartsWith(line, "### ")
    ensures ThreePasses(line) == "<h3>" + line[4..] + "</h3>"
  {
    assert line[..4][1] == line[1] && line[..4][2] == line[2];
    SecondCharDiffers(line, "# ");
    ThirdCharDiffers(line, "## ");
  }

  lemma HeadingLinePasses(line: string)
    ensures ThreePasses(line) == Heading(line)
  {
    if StartsWith(line, "# ") {
      H1Line(line);
    } else if StartsWith(line, "## ") {
      H2Line(line);
    } else if StartsWith(line, "### ") {
      H3Line(line);
    }
  }

  /** The three heading passes rewrite every line on its own: a line
      starting with "# ", "## " or "### " becomes an h1, h2 or h3 element
      around the rest of the line, and every other line is kept. */
  lemma HeadingsByLine(s: string)
    ensures Lines(Headings(s)) == seq(|Lines(s)|, k requires 0 <= k < |Lines(s)| => Heading(Lines(s)[k]))
  {
    var ls := Lines(s);
    var h1 := HeadingPass("# ", "h1", s);
    var h2 := HeadingPass("## ", "h2", h1);
    PassLines("# ", "h1", s);
    PassLines("## ", "h2", h1);
    PassLines("### ", "h3", h2);
    var m3 := MapHeading("### ", "h3", MapHeading("## ", "h2", MapHeading("# ", "h1", ls)));
    assert Lines(Headings(s)) == m3;
    forall k | 0 <= k < |ls| ensures m3[k] == Heading(ls[k]) {
      HeadingLinePasses(ls[k]);
    }
  }

  /** A heading pass maps the lines of its input one by one. */
  lemma PassLines(prefix: string, tag: string, s: string)
    requires '\n' !in tag
    ensures Lines(HeadingPass(prefix, tag, s)) == MapHeading(prefix, tag, Lines(s))
  {
    LinesOfJoin(MapHeading(prefix, tag, Lines(s)));
  }

  /** The lazy `<d>(.*?)<d>` from position `i`: where the closing delimiter
      starts, if one follows on the same line. */
  function CloseAt(s: string, d: string, k: nat): (r: Option<nat>)
    requires k <= |s|
    ensures r.Some? ==> k <= r.value && r.value + |d| <= |s| && s[r.value..r.value + |d|] == d
    ensures r.Some? ==> '\n' !in s[k..r.value]
    decreases |s| - k
  {
    if k + |d| <= |s| && s[k..k + |d|] == d then Some(k)
    else if k < |s| && s[k] != '\n' then
      var r := CloseAt(s, d, k + 1);
      assert r.Some? ==> s[k..r.value] == [s[k]] + s[k + 1..r.value];
      r
    else None
  }

  /** `re.sub(r'<d>(.*?)<d>', open + r'\1' + close, s[i..])` for a
      delimiter of `*` characters. */
  function Emphasis(s: string, d: string, open: string, close: string, i: nat): (r: string)
    requires |d| > 0 && i <= |s|
    decreases |s| - i
  {
    if i == |s| then []
    else if i + |d| <= |s| && s[i..i + |d|] == d && CloseAt(s, d, i + |d|).Some? then
      var j := CloseAt(s, d, i + |d|).value;
      open + s[i + |d|..j] + close + Emphasis(s, d, open, close, j + |d|)
    else [s[i]] + Emphasis(s, d, open, close, i + 1)
  }

  /** A text without '*' passes both emphasis rules unchanged. */
  lemma {:induction false} EmphasisNoStar(s: string, d: string, open: string, close: string, i: nat)
    requires |d| > 0 && d[0] == '*' && i <= |s| && '*' !in s
    ensures Emphasis(s, d, open, close, i) == s[i..]
    decreases |s| - i
  {
    if i < |s| {
      if i + |d| <= |s| {
        assert s[i..i + |d|][0] == s[i] != '*';
      }
      EmphasisNoStar(s, d, open, close, i + 1);
      assert s[i..] == [s[i]] + s[i + 1..];
    }
  }

  /** The lazy group closes at the first delimiter: when no character
      before position `j` could start the delimiter or end the line. */
  lemma {:induction false} CloseAtSpan(s: string, d: string, k: nat, j: nat)
    requires |d| > 0 && k <= j && j + |d| <= |s| && s[j..j + |d|] == d
    requires forall m :: k <= m < j ==> s[m] != d[0] && s[m] != '\n'
    ensures CloseAt(s, d, k) == Some(j)
    decreases j - k
  {
    if k < j {
      assert s[k..k + |d|][0] == s[k];
      CloseAtSpan(s, d, k + 1, j);
    }
  }

  /** An emphasis rule turns a delimited star-free span of one line into
      its element: `**x**` becomes `<strong>x</strong>` and `*x*` becomes
      `<em>x</em>`. */
  lemma EmphasisSpan(x: string, d: string, open: string, close: string)
    requires |d| > 0 && d[0] == '*' && '*' !in x && '\n' !in x
    ensures Emphasis(d + x + d, d, open, close, 0) == open + x + close
  {
    var s := d + x + d;
    var j := |d| + |x|;
    assert s[0..|d|] == d;
    assert s[j..j + |d|] == d;
    forall m | |d| <= m < j ensures s[m] != d[0] && s[m] != '\n' {
      assert s[m] == x[m - |d|];
    }
    CloseAtSpan(s, d, |d|, j);
    assert s[|d|..j] == x;
  }

  /** `s.replace(p, r)` with `re.sub` of a literal: non-overlapping, left to
      right. */
  function ReplaceAll(s: string, p: string, rep: string): (r: string)
    requires |p| > 0
    decreases |s|
  {
    if |s| < |p| then s
    else if s[..|p|] == p then rep + ReplaceAll(s[|p|..], p, rep)
    else [s[0]] + ReplaceAll(s[1..], p, rep)
  }

  predicate OccursAt(s: string, p: string, k: nat) {
    k + |p| <= |s| && s[k..k + |p|] == p
  }

  /** Where the pattern occurs nowhere, the replacement changes nothing. */
  lemma {:induction false} ReplaceAllNoMatch(s: string, p: string, rep: string)
    requires |p| > 0 && forall k: nat :: !OccursAt(s, p, k)
    ensures ReplaceAll(s, p, rep) == s
    decreases |s|
  {
    if |s| >= |p| {
      var t := s[1..];
      assert !OccursAt(s, p, 0) && s[..|p|] == s[0..|p|];
      forall k: nat ensures !OccursAt(t, p, k) {
        assert !OccursAt(s, p, k + 1);
        if k + |p| <= |t| {
          assert t[k..k + |p|] == s[k + 1..k + 1 + |p|];
        }
      }
      ReplaceAllNoMatch(t, p, rep);
      assert s == [s[0]] + t;
    }
  }

  predicate HasBlankLine(s: string) {
    exists k :: 0 <= k < |s| - 1 && s[k] == '\n' && s[k + 1] == '\n'
  }

  /** After "\n\n" becomes "</p><p>", no two newlines are adjacent, and the
      text does not start with a newline that followed a replaced pair. */
  lemma {:induction false} NoBlankLineLeft(s: string)
    ensures !HasBlankLine(ReplaceAll(s, "\n\n", "</p><p>"))
    ensures var r := ReplaceAll(s, "\n\n", "</p><p>"); r != [] && r[0] == '\n' ==> s[0] == '\n' && (|s| == 1 || s[1] != '\n')
    decreases |s|
  {
    var r := ReplaceAll(s, "\n\n", "</p><p>");
    if |s| >= 2 {
      if s[..2] == "\n\n" {
        NoBlankLineLeft(s[2..]);
        var rest := ReplaceAll(s[2..], "\n\n", "</p><p>");
        assert r == "</p><p>" + rest;
        forall k | 0 <= k < |r| - 1 ensures !(r[k] == '\n' && r[k + 1] == '\n') {
          if k >= 7 {
            assert r[k] == rest[k - 7] && r[k + 1] == rest[k - 6];
          }
        }
      } else {
        NoBlankLineLeft(s[1..]);
        var rest := ReplaceAll(s[1..], "\n\n", "</p><p>");
        assert r == [s[0]] + rest;
        forall k | 0 <= k < |r| - 1 ensures !(r[k] == '\n' && r[k + 1] == '\n') {
          if k >= 1 {
            assert r[k] == rest[k - 1] && r[k + 1] == rest[k];
          } else if rest != [] && rest[0] == '\n' {
            assert s[1] == '\n';
          }
        }
      }
    }
  }

  /** _markdown_to_html(markdown). */
  function MarkdownToHtml(markdown: string): string {
    var html := Headings(markdown);
    var html := Emphasis(html, "**", "<strong>", "</strong>", 0);
    var html := Emphasis(html, "*", "<em>", "</em>", 0);
    var html := ReplaceAll(html, "\n\n", "</p><p>");
    ReplaceAll("<p>" + html + "</p>", "<p></p>", "")
  }

  /** Text with no Markdown in it (no '#', '*', newline or '<') becomes a
      single paragraph. */
  lemma MarkdownPlainParagraph(x: string)
    requires x != [] && forall k :: 0 <= k < |x| ==> x[k] !in "#*\n<"
    ensures MarkdownToHtml(x) == "<p>" + x + "</p>"
  {
    assert '\n' !in x && '*' !in x && '<' !in x;
    PlainHeadingPass("# ", "h1", x);
    PlainHeadingPass("## ", "h2", x);
    PlainHeadingPass("### ", "h3", x);
    EmphasisNoStar(x, "**", "<strong>", "</strong>", 0);
    EmphasisNoStar(x, "*", "<em>", "</em>", 0);
    assert x[0..] == x;
    NoBlankLineIn(x);
    ReplaceAllNoMatch(x, "\n\n", "</p><p>");
    var w := "<p>" + x + "</p>";
    NoEmptyParagraphIn(x);
    ReplaceAllNoMatch(w, "<p></p>", "");
  }

  lemma NoBlankLineIn(x: string)
    requires '\n' !in x
    ensures forall k: nat :: !OccursAt(x, "\n\n", k)
  {
    forall k: nat ensures !OccursAt(x, "\n\n", k) {
      if k + 2 <= |x| {
        assert x[k..k + 2][0] == x[k];
      }
    }
  }

  lemma NoEmptyParagraphIn(x: string)
    requires x != [] && '<' !in x
    ensures forall k: nat :: !OccursAt("<p>" + x + "</p>", "<p></p>", k)
  {
    var w := "<p>" + x + "</p>";
    forall k: nat ensures !OccursAt(w, "<p></p>", k) {
      if k + 7 <= |w| {
        assert w[k..k + 7][0] == w[k] && w[k..k + 7][3] == w[k + 3];
        if 3 <= k < 3 + |x| {
          assert w[k] == x[k - 3];
        } else if k == 0 {
          assert w[3] == x[0];
        }
      }
    }
  }

  lemma PlainHeadingPass(prefix: string, tag: string, x: string)
    requires prefix != [] && prefix[0] == '#' && x != [] && x[0] != '#' && '\n' !in x
    ensures HeadingPass(prefix, tag, x) == x
  {
    FirstCharDiffers(x, prefix);
    assert Lines(x) == [x];
    assert MapHeading(prefix, tag, [x]) == [x];
  }

  /** The wrapping step: the paragraphs are wrapped in one `<p>..</p>`
      pair, and an empty pair is dropped, so empty Markdown gives "". */
  lemma EmptyMarkdown()
    ensures MarkdownToHtml("") == ""
  {
    assert Lines("") == [""];
    assert MapHeading("# ", "h1", [""]) == [""];
    assert MapHeading("## ", "h2", [""]) == [""];
    assert MapHeading("### ", "h3", [""]) == [""];
    assert Headings("") == "";
    assert "<p>" + "" + "</p>" == "<p></p>";
  }

  /** Examples of the inline rules. */
  lemma InlineExamples()
    ensures Emphasis("**a**", "**", "<strong>", "</strong>", 0) == "<strong>a</strong>"
    ensures ReplaceAll("a\n\nb", "\n\n", "</p><p>") == "a</p><p>b"
  {
    var s := "**a**";
    assert s[0..2] == "**";
    assert s[2..4] == "a*";
    assert CloseAt(s, "**", 2) == CloseAt(s, "**", 3);
    assert s[3..5] == "**";
    assert CloseAt(s, "**", 2) == Some(3);
    var t := "a\n\nb";
    assert t[1..][..2] == "\n\n";
    assert t[1..][2..] == "b";
  }
}
