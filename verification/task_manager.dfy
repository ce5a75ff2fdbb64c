/** The task manager: containers over a task store, kept in the LRU cache and written through. */
module TaskManager {
  import opened Wrappers
  import opened Json
  import opened Plugin
  import opened TaskSpec
  import LRU
  import opened ContainerCache

  /** The task table.  Updates of a missing row affect nothing. */
  class TaskStore {
    var rows: Rows

    constructor (rows: Rows)
      ensures this.rows == rows
    {
      this.rows := rows;
    }

    method Create(id: string, row: TaskRow) returns (ok: bool)
      modifies this
      ensures ok <==> id !in old(rows)
      ensures rows == if ok then old(rows)[id := row] else old(rows)
    {
      ok := id !in rows;
      if ok {
        rows := rows[id := row];
      }
    }

    method GetByID(id: string) returns (row: Option<TaskRow>)
      ensures row == if id in rows then Some(rows[id]) else None
    {
      return if id in rows then Some(rows[id]) else None;
    }

    method UpdateStatus(id: string, state: TaskState)
      modifies this
      ensures rows == if id in old(rows)
                      then old(rows)[id := old(rows)[id].(view := old(rows)[id].view.(state := state))]
                      else old(rows)
    {
      if id in rows {
        rows := rows[id := rows[id].(view := rows[id].view.(state := state))];
      }
    }

    method UpdatePluginState(id: string, pluginState: PluginState)
      modifies this
      ensures rows == if id in old(rows)
                      then old(rows)[id := old(rows)[id].(view := old(rows)[id].view.(pluginState := pluginState))]
                      else old(rows)
    {
      if id in rows {
        rows := rows[id := rows[id].(view := rows[id].view.(pluginState := pluginState))];
      }
    }

    method UpdateLocalState(id: string, local: map<string, Json>)
      modifies this
      ensures rows == if id in old(rows)
                      then old(rows)[id := old(rows)[id].(view := old(rows)[id].view.(local := local))]
                      else old(rows)
    {
      if id in rows {
        rows := rows[id := rows[id].(view := rows[id].view.(local := local))];
      }
    }
  }

  /** The local state of one task, cached in memory and persisted on every write. */
  class LocalStateManager {
    const taskStore: TaskStore
    const taskID: string
    var cache: map<string, Json>

    /** Loads what the store holds; a missing row means an empty state. */
    constructor (taskStore: TaskStore, taskID: string)
      ensures this.taskStore == taskStore && this.taskID == taskID
      ensures cache == if taskID in taskStore.rows then taskStore.rows[taskID].view.local else map[]
    {
      this.taskStore := taskStore;
      this.taskID := taskID;
      cache := if taskID in taskStore.rows then taskStore.rows[taskID].view.local else map[];
    }

    constructor WithCache(taskStore: TaskStore, taskID: string, cache: map<string, Json>)
      ensures this.taskStore == taskStore && this.taskID == taskID && this.cache == cache
    {
      this.taskStore := taskStore;
      this.taskID := taskID;
      this.cache := cache;
    }

    method GetState(key: string) returns (value: Option<Json>)
      ensures value == if key in cache then Some(cache[key]) else None
    {
      return if key in cache then Some(cache[key]) else None;
    }

    method SetState(key: string, value: Json)
      modifies this, taskStore
      ensures cache == old(cache)[key := value]
      ensures taskStore.rows ==
              if taskID in old(taskStore.rows)
              then old(taskStore.rows)[taskID := old(taskStore.rows)[taskID].(
                     view := old(taskStore.rows)[taskID].view.(local := cache))]
              else old(taskStore.rows)
    {
      cache := cache[key := value];
      taskStore.UpdateLocalState(taskID, cache);
    }
  }

  class Container {
    const taskID: string
    const workflowID: string
    const globalState: Globals
    const taskStore: TaskStore
    const localState: LocalStateManager
    const executor: Executor
    var state: TaskState
    var pluginState: PluginState

    /** The plugin state is read from the store; without a row it is the empty one. */
    constructor (
        taskID: string, workflowID: string, initialState: TaskState, globalState: Globals,
        localState: LocalStateManager, taskStore: TaskStore, executor: Executor)
      ensures this.taskID == taskID && this.workflowID == workflowID && this.globalState == globalState
      ensures this.taskStore == taskStore && this.localState == localState && this.executor == executor
      ensures state == initialState
      ensures pluginState == if taskID in taskStore.rows then taskStore.rows[taskID].view.pluginState else NotStarted
    {
      this.taskID := taskID;
      this.workflowID := workflowID;
      this.globalState := globalState;
      this.taskStore := taskStore;
      this.localState := localState;
      this.executor := executor;
      state := initialState;
      pluginState := if taskID in taskStore.rows then taskStore.rows[taskID].view.pluginState else NotStarted;
    }

    /** The in-memory state of the task. */
    ghost function View(): TaskView
      reads this, localState
    {
      TaskView(state, pluginState, localState.cache)
    }

    ghost predicate Wired() {
      localState.taskStore == taskStore && localState.taskID == taskID
    }

    /** The row of the task holds exactly what the container holds. */
    ghost predicate Synced()
      reads this, localState, taskStore
    {
      && Wired()
      && taskID in taskStore.rows
      && var row := taskStore.rows[taskID];
        row.view == View() && row.workflowID == workflowID && row.globalContext == globalState
    }

    /** Updates memory, then the plugin state column, then the status column. */
    method Transition(action: Action) returns (ok: bool)
      requires Synced()
      modifies this`state, this`pluginState, taskStore
      ensures Synced() && View() == Apply(executor.fsm, old(View()), Fire(action))
      ensures ok <==> CanTransition(executor.fsm, old(pluginState), action)
      ensures taskStore.rows == old(taskStore.rows)[taskID := old(taskStore.rows)[taskID].(view := View())]
    {
      if !CanTransition(executor.fsm, pluginState, action) {
        assert taskStore.rows == taskStore.rows[taskID := taskStore.rows[taskID].(view := View())];
        return false;
      }
      var outcome := executor.fsm[(pluginState, action)];
      pluginState := outcome.nextPluginState;
      if outcome.nextTaskState.Some? {
        state := outcome.nextTaskState.value;
      }
      taskStore.UpdatePluginState(taskID, outcome.nextPluginState);
      if outcome.nextTaskState.Some? {
        taskStore.UpdateStatus(taskID, outcome.nextTaskState.value);
      }
      return true;
    }

    method WriteToLocalStore(key: string, value: Json)
      requires Synced()
      modifies localState, taskStore
      ensures Synced() && View() == Apply(executor.fsm, old(View()), WriteLocal(key, value))
      ensures taskStore.rows == old(taskStore.rows)[taskID := old(taskStore.rows)[taskID].(view := View())]
    {
      localState.SetState(key, value);
    }

    /** Carries out the API calls of one plugin call. */
    method Perform(effects: seq<Effect>)
      requires Synced()
      modifies this`state, this`pluginState, localState, taskStore
      ensures Synced() && View() == ApplyAll(executor.fsm, old(View()), effects)
      ensures taskStore.rows == old(taskStore.rows)[taskID := old(taskStore.rows)[taskID].(view := View())]
    {
      assert taskStore.rows == taskStore.rows[taskID := taskStore.rows[taskID].(view := View())];
      for i := 0 to |effects|
        invariant Synced() && View() == ApplyAll(executor.fsm, old(View()), effects[..i])
        invariant taskStore.rows == old(taskStore.rows)[taskID := old(taskStore.rows)[taskID].(view := View())]
      {
        assert effects[..i + 1][..i] == effects[..i];
        match effects[i] {
          case WriteLocal(key, value) => WriteToLocalStore(key, value);
          case Fire(action) => var ok := Transition(action);
        }
      }
      assert effects[..|effects|] == effects;
    }

    /** Start, Execute and GetRenderInfo: runs the plugin and reports a changed plugin state. */
    method Run(call: Call) returns (answer: Result<Response, string>)
      requires Synced()
      modifies this`state, this`pluginState, localState, taskStore
      ensures Synced()
      ensures var (row, a) := Invoke(executor, taskID, old(taskStore.rows)[taskID], call);
        taskStore.rows == old(taskStore.rows)[taskID := row] && answer == a
    {
      var prev := pluginState;
      var view := TaskView(state, pluginState, localState.cache);
      var plan := executor.plan(TaskContext(taskID, workflowID, globalState, view), call);
      Perform(plan.effects);
      match plan.reply {
        case Err(e) => return Err(e);
        case Ok(reply) =>
          if !call.RenderCall? && pluginState != prev {
            return Ok(Response(Some(state), Some(pluginState), reply));
          }
          return Ok(Response(None, None, reply));
      }
    }
  }

  class TaskManager {
    const factory: Factory
    const store: TaskStore
    const containerCache: Cache<Container>
    var notes: seq<Note>
    /** The last container built for each task id, and all containers with their local states. */
    ghost var live: map<string, Container>
    ghost var footprint: set<object>

    /** The container of an id is built from its row and in step with it. */
    ghost predicate Built(k: string, c: Container)
      reads store, c, c.localState
    {
      && c.taskID == k && c.taskStore == store && c.Synced()
      && factory(store.rows[k].taskType, store.rows[k].config) == Ok(c.executor)
    }

    ghost predicate LiveBuilt()
      reads `live, `footprint, store, footprint
    {
      forall k | k in live :: live[k] in footprint && live[k].localState in footprint && Built(k, live[k])
    }

    ghost predicate Apart()
      reads `footprint, containerCache
    {
      && this !in footprint && store !in footprint && containerCache !in footprint
      && forall n | n in containerCache.nodes :: n !in footprint
    }

    /** Every cached entry is the live container of its key. */
    ghost predicate CacheLive()
      reads `live, containerCache, containerCache.nodes
    {
      && containerCache.Valid()
      && (forall e | e in containerCache.Entries() :: e.key in live && live[e.key] == e.value)
    }

    ghost predicate Valid()
      reads `live, `footprint, store, containerCache, containerCache.nodes, footprint
    {
      Apart() && LiveBuilt() && CacheLive()
    }

    /** A manager over an existing task table, with an empty cache of any capacity. */
    constructor (factory: Factory, store: TaskStore, capacity: int)
      ensures this.factory == factory && this.store == store && notes == []
      ensures Valid() && fresh(containerCache) && live == map[] && footprint == {}
    {
      this.factory := factory;
      this.store := store;
      containerCache := new Cache<Container>(capacity);
      notes := [];
      live := map[];
      footprint := {};
    }

    method LookInCache(taskID: string) returns (r: Option<Container>)
      requires containerCache.Valid() && Apart()
      modifies containerCache, containerCache.nodes
      ensures containerCache.Valid() && Apart()
      ensures forall e | e in containerCache.Entries() :: e in old(containerCache.Entries())
      ensures r.Some? ==> LRU.Entry(taskID, r.value) in old(containerCache.Entries())
      ensures r.Some? <==> LRU.Has(old(containerCache.Entries()), taskID)
      ensures forall n | n in containerCache.nodes :: n in old(containerCache.nodes)
    {
      ghost var es := containerCache.Entries();
      r := containerCache.Get(taskID);
      LRU.GetKeeps(es, taskID);
      LRU.LookupExact(es, taskID);
      if r.Some? {
        LRU.LookupIn(es, taskID);
      }
    }

    method FindCached(taskID: string) returns (r: Option<Container>)
      requires Valid()
      modifies containerCache, containerCache.nodes
      ensures Valid()
      ensures r.Some? ==> taskID in live && live[taskID] == r.value
      ensures r.Some? <==> LRU.Has(old(containerCache.Entries()), taskID)
      ensures forall n | n in containerCache.nodes :: n in old(containerCache.nodes)
    {
      r := LookInCache(taskID);
    }

    method StoreInCache(c: Container)
      requires containerCache.Valid() && Apart()
      modifies containerCache, containerCache.nodes
      ensures containerCache.Valid() && Apart()
      ensures forall e | e in containerCache.Entries() ::
        (e.key == c.taskID && e.value == c) || (e.key != c.taskID && e in old(containerCache.Entries()))
      ensures forall n | n in containerCache.nodes :: n in old(containerCache.nodes) || fresh(n)
    {
      containerCache.Set(c.taskID, c);
    }

    /** Caches a container that is in step with its row, in place of any earlier one for its id. */
    method CacheContainer(c: Container)
      requires Valid() && Built(c.taskID, c)
      modifies this`live, this`footprint, containerCache, containerCache.nodes
      ensures Valid() && live == old(live)[c.taskID := c] && footprint == old(footprint) + {c, c.localState}
      ensures forall n | n in containerCache.nodes :: n in old(containerCache.nodes) || fresh(n)
    {
      StoreInCache(c);
      Adopt(c);
    }

    /** Makes a container the live one of its id. */
    ghost method Adopt(c: Container)
      requires Apart() && LiveBuilt() && containerCache.Valid() && Built(c.taskID, c)
      requires forall e | e in containerCache.Entries() ::
        (e.key == c.taskID && e.value == c) || (e.key in live && live[e.key] == e.value && e.key != c.taskID)
      modifies this`live, this`footprint
      ensures Valid() && live == old(live)[c.taskID := c] && footprint == old(footprint) + {c, c.localState}
    {
      live := live[c.taskID := c];
      footprint := footprint + {c, c.localState};
    }

    /** Builds a container from the stored row. */
    method Rebuild(taskID: string) returns (r: Result<Container, string>)
      requires taskID != ""
      ensures match r
        case Ok(c) => Lookup(factory, store.rows, taskID).Ok? && fresh(c) && fresh(c.localState) && Built(taskID, c)
        case Err(e) => Lookup(factory, store.rows, taskID) == Err(e)
    {
      if taskID !in store.rows {
        return Err("task not found");
      }
      var execution := store.rows[taskID];
      var exec := factory(execution.taskType, execution.config);
      if exec.Err? {
        return Err(exec.error);
      }
      var localState := new LocalStateManager.WithCache(store, taskID, execution.view.local);
      var container := new Container(
        taskID, execution.workflowID, execution.view.state, execution.globalContext, localState, store, exec.value);
      return Ok(container);
    }

    /** Under the build lock: looks again, then rebuilds the container from its row and caches it. */
    method BuildTask(taskID: string) returns (r: Result<Container, string>)
      requires Valid() && taskID != ""
      modifies this`live, this`footprint, containerCache, containerCache.nodes
      ensures Valid() && fresh(footprint - old(footprint))
      ensures match r
        case Ok(c) => taskID in live && live[taskID] == c
        case Err(e) => Lookup(factory, store.rows, taskID) == Err(e)
      ensures forall n | n in containerCache.nodes :: n in old(containerCache.nodes) || fresh(n)
    {
      var cached := FindCached(taskID);
      if cached.Some? {
        return Ok(cached.value);
      }
      r := Rebuild(taskID);
      if r.Ok? {
        CacheContainer(r.value);
      }
    }

    method GetTask(taskID: string) returns (r: Result<Container, string>)
      requires Valid() && taskID != ""
      modifies this`live, this`footprint, containerCache, containerCache.nodes
      ensures Valid() && fresh(footprint - old(footprint))
      ensures match r
        case Ok(c) => taskID in live && live[taskID] == c
        case Err(e) => Lookup(factory, store.rows, taskID) == Err(e)
      ensures forall n | n in containerCache.nodes :: n in old(containerCache.nodes) || fresh(n)
    {
      var cached := FindCached(taskID);
      if cached.Some? {
        return Ok(cached.value);
      }
      r := BuildTask(taskID);
    }

    /** Runs one call on a live container.  No other row and no other container is affected. */
    method RunTask(taskID: string, c: Container, call: Call) returns (answer: Result<Response, string>)
      requires Valid() && taskID in live && live[taskID] == c
      modifies store, footprint
      ensures Valid()
      ensures taskID in old(store.rows) && c.workflowID == old(store.rows)[taskID].workflowID
      ensures factory(old(store.rows)[taskID].taskType, old(store.rows)[taskID].config) == Ok(c.executor)
      ensures var (row, a) := Invoke(c.executor, taskID, old(store.rows)[taskID], call);
        store.rows == old(store.rows)[taskID := row] && answer == a
    {
      answer := c.Run(call);
    }

    /** Starts a container and tells the update handler, whatever the result. */
    method StartTask(taskID: string, c: Container, env: Json) returns (answer: Result<Response, string>)
      requires Valid() && taskID in live && live[taskID] == c
      modifies this`notes, store, footprint
      ensures Valid() && taskID in old(store.rows)
      ensures factory(old(store.rows)[taskID].taskType, old(store.rows)[taskID].config) == Ok(c.executor)
      ensures Served(store.rows, answer, notes) ==
              var s := StartRow(c.executor, old(store.rows), taskID, env); s.(notes := old(notes) + s.notes)
    {
      answer := RunTask(taskID, c, StartCall(env));
      notes := notes + StartNotes(taskID, answer);
    }

    /** Builds the container of a new task and its row. */
    method CreateTask(req: Request, executor: Executor) returns (c: Container, ok: bool)
      requires Valid() && req.Init? && factory(req.taskType, req.config) == Ok(executor)
      modifies this`live, this`footprint, store, containerCache, containerCache.nodes
      ensures Valid() && fresh(footprint - old(footprint))
      ensures ok <==> req.taskID !in old(store.rows)
      ensures ok ==> req.taskID in live && live[req.taskID] == c && c.executor == executor
      ensures store.rows == if ok then old(store.rows)[req.taskID := NewRow(req)] else old(store.rows)
      ensures forall n | n in containerCache.nodes :: n in old(containerCache.nodes) || fresh(n)
    {
      c := NewContainer(req, executor);
      ok := CreateRow(NewRow(req), c);
      if ok {
        CacheContainer(c);
      }
    }

    /** The container of a task without a row, in the state its row will have. */
    method NewContainer(req: Request, executor: Executor) returns (c: Container)
      requires req.Init?
      ensures fresh(c) && fresh(c.localState) && c.Wired() && c.executor == executor
      ensures c.taskID == req.taskID && c.taskStore == store
      ensures c.workflowID == req.workflowID && c.globalState == req.globals
      ensures req.taskID !in store.rows ==> c.View() == NewRow(req).view
    {
      var localState := new LocalStateManager(store, req.taskID);
      c := new Container(req.taskID, req.workflowID, Initialized, req.globals, localState, store, executor);
    }

    /** A new row concerns no live container, and its own container is in step with it. */
    method CreateRow(row: TaskRow, c: Container) returns (ok: bool)
      requires Valid() && c.Wired() && c.taskStore == store
      requires factory(row.taskType, row.config) == Ok(c.executor)
      requires c.workflowID == row.workflowID && c.globalState == row.globalContext
      requires c.taskID !in store.rows ==> c.View() == row.view
      modifies store
      ensures Valid()
      ensures ok <==> c.taskID !in old(store.rows)
      ensures ok ==> Built(c.taskID, c)
      ensures store.rows == if ok then old(store.rows)[c.taskID := row] else old(store.rows)
    {
      ok := store.Create(c.taskID, row);
    }

    /** A first initialization behaves as without a cache; a repeated one restarts exactly a cached task, or fails. */
    method InitTask(req: Request) returns (answer: Result<Response, string>, ghost restarted: bool)
      requires Valid() && req.Init?
      modifies this`notes, this`live, this`footprint, store, containerCache, containerCache.nodes, footprint
      ensures Valid() && fresh(footprint - old(footprint))
      ensures forall n | n in containerCache.nodes :: n in old(containerCache.nodes) || fresh(n)
      ensures req.taskID !in old(store.rows) ==>
        Served(store.rows, answer, notes) ==
        var s := ServeInit(factory, old(store.rows), req); s.(notes := old(notes) + s.notes)
      ensures restarted <==> LRU.Has(old(containerCache.Entries()), req.taskID)
      ensures restarted ==> req.taskID in old(store.rows)
      ensures req.taskID in old(store.rows) ==>
        if restarted then
          && factory(old(store.rows)[req.taskID].taskType, old(store.rows)[req.taskID].config).Ok?
          && var x := factory(old(store.rows)[req.taskID].taskType, old(store.rows)[req.taskID].config).value;
             var s := StartRow(x, old(store.rows), req.taskID, req.env);
             Served(store.rows, answer, notes) == s.(notes := old(notes) + s.notes)
        else answer.Err? && store.rows == old(store.rows) && notes == old(notes)
    {
      restarted := false;
      var existing := FindCached(req.taskID);
      if existing.Some? {
        restarted := true;
        answer := StartTask(req.taskID, existing.value, req.env);
        return;
      }
      answer := InitNewTask(req);
    }

    method InitNewTask(req: Request) returns (answer: Result<Response, string>)
      requires Valid() && req.Init?
      modifies this`notes, this`live, this`footprint, store, containerCache, containerCache.nodes, footprint
      ensures Valid() && fresh(footprint - old(footprint))
      ensures forall n | n in containerCache.nodes :: n in old(containerCache.nodes) || fresh(n)
      ensures if req.taskID in old(store.rows)
              then answer.Err? && store.rows == old(store.rows) && notes == old(notes)
              else Served(store.rows, answer, notes) ==
                   var s := ServeInit(factory, old(store.rows), req); s.(notes := old(notes) + s.notes)
    {
      var exec := factory(req.taskType, req.config);
      if exec.Err? {
        return Err(exec.error);
      }
      var c, ok := CreateTask(req, exec.value);
      if !ok {
        return Err("failed to store task info");
      }
      answer := StartTask(req.taskID, c, req.env);
    }

    /** Executes a live task and tells the done handler or the update handler. */
    method ExecuteLive(req: Request, c: Container) returns (answer: Result<Response, string>)
      requires Valid() && req.Execute? && req.taskID != "" && req.taskID in live && live[req.taskID] == c
      modifies this`notes, store, footprint
      ensures Valid()
      ensures Served(store.rows, answer, notes) ==
              var s := ServeExecute(factory, old(store.rows), req); s.(notes := old(notes) + s.notes)
    {
      answer := RunTask(req.taskID, c, ExecuteCall(req.action, req.content, req.env));
      notes := notes + ExecuteNotes(req.taskID, c.workflowID, answer);
    }

    /** Whatever is cached, the row, the answer and the notifications are those of the stored row alone. */
    method ExecuteTask(req: Request) returns (answer: Result<Response, string>)
      requires Valid() && req.Execute?
      modifies this`notes, this`live, this`footprint, store, containerCache, containerCache.nodes, footprint
      ensures Valid() && fresh(footprint - old(footprint))
      ensures forall n | n in containerCache.nodes :: n in old(containerCache.nodes) || fresh(n)
      ensures Served(store.rows, answer, notes) ==
              var s := ServeExecute(factory, old(store.rows), req); s.(notes := old(notes) + s.notes)
    {
      if req.taskID == "" {
        return Err("task id is required");
      }
      var task := GetTask(req.taskID);
      if task.Err? {
        return Err(task.error);
      }
      answer := ExecuteLive(req, task.value);
    }

    method GetTaskRenderInfo(req: Request) returns (answer: Result<Response, string>)
      requires Valid() && req.Render?
      modifies this`live, this`footprint, store, containerCache, containerCache.nodes, footprint
      ensures Valid() && fresh(footprint - old(footprint))
      ensures forall n | n in containerCache.nodes :: n in old(containerCache.nodes) || fresh(n)
      ensures Served(store.rows, answer, []) == ServeRender(factory, old(store.rows), req)
    {
      if req.taskID == "" {
        return Err("task id is required");
      }
      var task := GetTask(req.taskID);
      if task.Err? {
        return Err(task.error);
      }
      answer := RunTask(req.taskID, task.value, RenderCall(req.env));
    }

    /** Serves one request. */
    method Handle(req: Request) returns (answer: Result<Response, string>)
      requires Valid() && (req.Init? ==> req.taskID !in store.rows)
      modifies this`notes, this`live, this`footprint, store, containerCache, containerCache.nodes, footprint
      ensures Valid() && fresh(footprint - old(footprint))
      ensures forall n | n in containerCache.nodes :: n in old(containerCache.nodes) || fresh(n)
      ensures Served(store.rows, answer, notes) ==
              var s := Serve(factory, old(store.rows), req); s.(notes := old(notes) + s.notes)
    {
      match req {
        case Init(_, _, _, _, _, _) =>
          ghost var restarted: bool;
          answer, restarted := InitTask(req);
        case Execute(_, _, _, _) => answer := ExecuteTask(req);
        case Render(_, _) =>
          answer := GetTaskRenderInfo(req);
          assert notes == old(notes) + [];
      }
    }

    /** A whole run: at every capacity the same answers, notifications and rows as with no cache at all. */
    method HandleAll(reqs: seq<Request>) returns (answers: seq<Result<Response, string>>)
      requires Valid() && InitOnce(reqs, store.rows)
      modifies this`notes, this`live, this`footprint, store, containerCache, containerCache.nodes, footprint
      ensures Valid()
      ensures Transcript(store.rows, answers, notes) == ServeAll(factory, old(store.rows), reqs, old(notes))
    {
      answers := [];
      ghost var rows0, notes0 := store.rows, notes;
      for i := 0 to |reqs|
        invariant Valid() && fresh(footprint - old(footprint))
        invariant forall n | n in containerCache.nodes :: n in old(containerCache.nodes) || fresh(n)
        invariant Transcript(store.rows, answers, notes) == ServeAll(factory, rows0, reqs[..i], notes0)
      {
        ServeAllKeys(factory, rows0, reqs[..i], notes0);
        assert reqs[i].Init? ==> reqs[i].taskID !in store.rows;
        var answer := Handle(reqs[i]);
        answers := answers + [answer];
        assert reqs[..i + 1][..i] == reqs[..i];
      }
      assert reqs[..|reqs|] == reqs;
    }
  }
}
