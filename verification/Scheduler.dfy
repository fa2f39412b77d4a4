/** The scheduler process (cmd/scheduler): its global maps of pointers, its bounded queue, its
    worker goroutines' local variable, and the handlers that change them under the mutex.  Every
    handler is proved to take exactly the matching step of SchedulerState. */
module Scheduler {
  import opened Models
  import opened SchedulerState

  /** What a Go `*models.Host` points to. */
  class HostCell {
    var v: Host
    constructor (h: Host) ensures v == h { v := h; }
  }

  /** What a Go `*models.Service` points to. */
  class ServiceCell {
    var v: Service
    constructor (s: Service) ensures v == s { v := s; }
  }

  /** Two cores that agree on every field are the same. */
  lemma SameCore(a: Core, b: Core)
    requires a.opts == b.opts && a.hosts == b.hosts && a.services == b.services
    requires a.history == b.history && a.notified == b.notified && a.forwarded == b.forwarded
    ensures a == b
  {
  }

  lemma HostStep(s: State, k: string, now: int)
    requires s.clock <= now && k in s.core.hosts && HostDue(s.core.hosts[k], now)
    ensures Enabled(s, Pop(now, Some(HostEntity(k))))
    ensures Apply(s, Pop(now, Some(HostEntity(k)))) == s.(core := Rearmed(s.core, HostEntity(k), now), clock := now)
  {
  }

  lemma ServiceStep(s: State, k: string, now: int)
    requires s.clock <= now && k in s.core.services && ServiceDue(s.core.services[k], now)
    requires NoHostDue(s.core, now)
    ensures Enabled(s, Pop(now, Some(ServiceEntity(k))))
    ensures Apply(s, Pop(now, Some(ServiceEntity(k)))) == s.(core := Rearmed(s.core, ServiceEntity(k), now), clock := now)
  {
  }

  lemma IdleStep(s: State, now: int)
    requires s.clock <= now
    requires NoHostDue(s.core, now)
    requires NoServiceDue(s.core, now)
    ensures Enabled(s, Pop(now, None))
    ensures Apply(s, Pop(now, None)) == s.(clock := now)
  {
  }

  datatype Reply = Ok200 | Accepted202 | NoContent204 | BadRequest400 | Unavailable503

  class Server {
    const opts: Options
    var hosts: map<string, HostCell>
    var services: map<string, ServiceCell>
    var resultQueue: seq<CheckResult>
    /** The local variable `res` of each worker goroutine, while it holds a dequeued result. */
    var workers: seq<Option<CheckResult>>
    var history: seq<LogLine>
    var notified: seq<Notification>
    var forwarded: seq<CheckResult>
    /** The last time read under the mutex. */
    ghost var clock: int

    /** No two keys share a cell.  That the viewed state is well formed need not be repeated here:
        every handler takes a step of the machine, and steps keep WellFormed. */
    ghost predicate Valid()
      reads this`hosts, this`services
    {
      && (forall j, k :: j in hosts && k in hosts && j != k ==> hosts[j] != hosts[k])
      && (forall j, k :: j in services && k in services && j != k ==> services[j] != services[k])
    }

    ghost function HostsView(): map<string, Host>
      reads this`hosts, hosts.Values
    {
      map k | k in hosts :: hosts[k].v
    }

    ghost function ServicesView(): map<string, Service>
      reads this`services, services.Values
    {
      map k | k in services :: services[k].v
    }

    ghost function CoreView(): Core
      reads this`hosts, this`services, this`history, this`notified, this`forwarded
      reads hosts.Values, services.Values
    {
      Core(opts, HostsView(), ServicesView(), history, notified, forwarded)
    }

    ghost function View(): State
      reads this, hosts.Values, services.Values
    {
      State(CoreView(), resultQueue, workers, clock)
    }

    /** The process as main() starts it without a state file. */
    constructor (opts: Options, now: int)
      ensures Valid()
      ensures View() == State(Core(opts, map[], map[], [], [], []), [], seq(10, _ => None), now)
    {
      this.opts := opts;
      hosts, services := map[], map[];
      resultQueue, workers := [], seq(WORKER_COUNT, _ => None);
      history, notified, forwarded := [], [], [];
      clock := now;
    }

    /** syncAllHandler; `payload` is None when the body does not decode. */
    method SyncAll(payload: Option<GlobalConfig>, now: int) returns (reply: Reply)
      requires Valid() && clock <= now
      modifies this`hosts, this`services, this`clock
      ensures Valid()
      ensures payload.None? ==> reply == BadRequest400 && View() == old(View())
      ensures payload.Some? ==>
                && reply == Ok200
                && View() == Apply(old(View()), Sync(now, payload.value.hosts, payload.value.services))
    {
      if payload.None? {
        return BadRequest400;
      }
      Install(payload.value, now);
      clock := now;
      reply := Ok200;
    }

    /** Both maps are rebuilt from the payload and then replaced. */
    method Install(cfg: GlobalConfig, now: int)
      requires Valid()
      modifies this`hosts, this`services
      ensures Valid()
      ensures CoreView() == old(CoreView()).(hosts := SyncedHosts(old(CoreView()).hosts, cfg.hosts, now),
                                             services := SyncedServices(old(CoreView()).services, cfg.services, now))
    {
      var newHosts := RebuildHosts(cfg.hosts, now);
      var newServices := RebuildServices(cfg.services, now);
      ghost var after := CoreView().(hosts := SyncedHosts(CoreView().hosts, cfg.hosts, now),
                                     services := SyncedServices(CoreView().services, cfg.services, now));
      hosts := newHosts;
      services := newServices;
      assert HostsView() == after.hosts;
      assert ServicesView() == after.services;
      SameCore(CoreView(), after);
    }

    /** The first loop of syncAllHandler. */
    method RebuildHosts(payload: seq<Host>, now: int) returns (rebuilt: map<string, HostCell>)
      requires Valid()
      ensures forall k :: k in rebuilt ==> fresh(rebuilt[k])
      ensures forall j, k :: j in rebuilt && k in rebuilt && j != k ==> rebuilt[j] != rebuilt[k]
      ensures (map k | k in rebuilt :: rebuilt[k].v) == SyncedHosts(HostsView(), payload, now)
    {
      rebuilt := map[];
      for i := 0 to |payload|
        invariant forall k :: k in rebuilt ==> fresh(rebuilt[k])
        invariant forall j, k :: j in rebuilt && k in rebuilt && j != k ==> rebuilt[j] != rebuilt[k]
        invariant rebuilt.Keys == SyncedHosts(HostsView(), payload[..i], now).Keys
        invariant forall k :: k in rebuilt ==> rebuilt[k].v == SyncedHosts(HostsView(), payload[..i], now)[k]
      {
        var hCopy := payload[i];
        if hCopy.id in hosts {
          var known := hosts[hCopy.id].v;
          hCopy := hCopy.(isUp := known.isUp, status := known.status, nextCheck := known.nextCheck);
        } else {
          hCopy := hCopy.(isUp := true, nextCheck := now);
        }
        var cell := new HostCell(hCopy);
        assert payload[..i + 1][..i] == payload[..i];
        rebuilt := rebuilt[hCopy.id := cell];
      }
      assert payload[..|payload|] == payload;
    }

    /** The second loop of syncAllHandler. */
    method RebuildServices(payload: seq<Service>, now: int) returns (rebuilt: map<string, ServiceCell>)
      requires Valid()
      ensures forall k :: k in rebuilt ==> fresh(rebuilt[k])
      ensures forall j, k :: j in rebuilt && k in rebuilt && j != k ==> rebuilt[j] != rebuilt[k]
      ensures (map k | k in rebuilt :: rebuilt[k].v) == SyncedServices(ServicesView(), payload, now)
    {
      rebuilt := map[];
      for i := 0 to |payload|
        invariant forall k :: k in rebuilt ==> fresh(rebuilt[k])
        invariant forall j, k :: j in rebuilt && k in rebuilt && j != k ==> rebuilt[j] != rebuilt[k]
        invariant rebuilt.Keys == SyncedServices(ServicesView(), payload[..i], now).Keys
        invariant forall k :: k in rebuilt ==> rebuilt[k].v == SyncedServices(ServicesView(), payload[..i], now)[k]
      {
        var sCopy := payload[i];
        if sCopy.id in services {
          var known := services[sCopy.id].v;
          sCopy := sCopy.(nextCheck := known.nextCheck, currentState := known.currentState);
        } else {
          sCopy := sCopy.(nextCheck := now);
        }
        var cell := new ServiceCell(sCopy);
        assert payload[..i + 1][..i] == payload[..i];
        rebuilt := rebuilt[sCopy.id := cell];
      }
      assert payload[..|payload|] == payload;
    }

    /** A write through the pointer stored under `k`. */
    method StoreHost(k: string, h: Host)
      requires Valid() && k in hosts
      modifies hosts[k]
      ensures HostsView() == old(HostsView())[k := h] && ServicesView() == old(ServicesView())
    {
      hosts[k].v := h;
    }

    method StoreService(k: string, s: Service)
      requires Valid() && k in services
      modifies services[k]
      ensures ServicesView() == old(ServicesView())[k := s] && HostsView() == old(HostsView())
    {
      services[k].v := s;
    }

    /** popTaskHandler. */
    method PopTask(now: int) returns (reply: Reply, task: Option<CheckTask>, ghost served: Option<Entity>)
      requires Valid() && clock <= now
      modifies this`clock, hosts.Values, services.Values
      ensures Valid()
      ensures Enabled(old(View()), Pop(now, served))
      ensures View() == Apply(old(View()), Pop(now, served))
      ensures served.None? ==> reply == NoContent204 && task == None
      ensures served.Some? ==> reply == Ok200 && task == Some(TaskOf(old(View()).core, served.value))
    {
      ghost var before, key: string := View(), "";
      clock := now;
      assert CoreView() == before.core;
      task, key := PopHost(now);
      if task.Some? {
        HostStep(before, key, now);
        return Ok200, task, Some(HostEntity(key));
      }
      assert CoreView() == before.core;
      task, key := PopService(now);
      if task.Some? {
        ServiceStep(before, key, now);
        return Ok200, task, Some(ServiceEntity(key));
      }
      IdleStep(before, now);
      return NoContent204, None, None;
    }

    /** The first loop of popTaskHandler.  The order in which a map is ranged over is arbitrary. */
    method PopHost(now: int) returns (task: Option<CheckTask>, ghost key: string)
      requires Valid()
      modifies hosts.Values
      ensures task.None? ==> CoreView() == old(CoreView()) && NoHostDue(CoreView(), now)
      ensures task.Some? ==>
                && key in hosts && HostDue(old(HostsView())[key], now)
                && CoreView() == Rearmed(old(CoreView()), HostEntity(key), now)
                && task.value == TaskOf(old(CoreView()), HostEntity(key))
    {
      var left := hosts.Keys;
      while left != {}
        invariant left <= hosts.Keys
        invariant forall k :: k in hosts && k !in left ==> !HostDue(hosts[k].v, now)
        invariant CoreView() == old(CoreView())
      {
        var k :| k in left;
        left := left - {k};
        var h := hosts[k].v;
        assert h == old(HostsView())[k];
        if h.checkCommand != "" && now > h.nextCheck {
          StoreHost(k, h.(nextCheck := now + 2 * MINUTE));
          SameCore(CoreView(), Rearmed(old(CoreView()), HostEntity(k), now));
          return Some(CheckTask("HOST:" + h.id, h.checkCommand)), k;
        }
      }
      task, key := None, "";
    }

    /** The second loop of popTaskHandler. */
    method PopService(now: int) returns (task: Option<CheckTask>, ghost key: string)
      requires Valid()
      modifies services.Values
      ensures task.None? ==> CoreView() == old(CoreView()) && NoServiceDue(CoreView(), now)
      ensures task.Some? ==>
                && key in services && ServiceDue(old(ServicesView())[key], now)
                && CoreView() == Rearmed(old(CoreView()), ServiceEntity(key), now)
                && task.value == TaskOf(old(CoreView()), ServiceEntity(key))
    {
      var left := services.Keys;
      while left != {}
        invariant left <= services.Keys
        invariant forall k :: k in services && k !in left ==> !ServiceDue(services[k].v, now)
        invariant CoreView() == old(CoreView())
      {
        var k :| k in left;
        left := left - {k};
        var s := services[k].v;
        assert s == old(ServicesView())[k];
        if s.checkCommand != "" && now > s.nextCheck {
          StoreService(k, s.(nextCheck := now + MINUTE));
          SameCore(CoreView(), Rearmed(old(CoreView()), ServiceEntity(k), now));
          return Some(CheckTask(s.id, s.checkCommand)), k;
        }
      }
      task, key := None, "";
    }

    /** pushResultHandler; an undecodable body is answered 200 by default and changes nothing. */
    method PushResult(payload: Option<CheckResult>) returns (reply: Reply)
      requires Valid()
      modifies this`resultQueue
      ensures Valid()
      ensures payload.None? ==> reply == Ok200 && View() == old(View())
      ensures payload.Some? ==>
                && reply == (if |old(resultQueue)| < 5000 then Accepted202 else Unavailable503)
                && View() == Apply(old(View()), Push(payload.value, reply == Accepted202))
    {
      if payload.None? {
        return Ok200;
      }
      if |resultQueue| < QUEUE_CAPACITY {
        resultQueue := resultQueue + [payload.value];
        reply := Accepted202;
      } else {
        reply := Unavailable503;
      }
    }

    /** A worker receives from the channel; it does not hold the mutex yet. */
    method ReceiveResult(w: nat)
      requires Valid() && w < |workers| && workers[w].None? && resultQueue != []
      modifies this`resultQueue, this`workers
      ensures Valid() && View() == Apply(old(View()), Dequeue(w))
    {
      workers := workers[w := Some(resultQueue[0])];
      resultQueue := resultQueue[1..];
    }

    /** The part of resultWorker's loop body that runs under the mutex. */
    method ProcessResult(w: nat)
      requires Valid() && w < |workers| && workers[w].Some?
      modifies this`workers, this`history, this`notified, this`forwarded, hosts.Values, services.Values
      ensures Valid() && View() == Apply(old(View()), Process(w))
    {
      var res := workers[w].value;
      workers := workers[w := None];
      if "HOST:" <= res.id {
        HandleHostResult(res);
      } else {
        HandleServiceResult(res);
      }
    }

    method HandleHostResult(res: CheckResult)
      requires Valid() && "HOST:" <= res.id
      modifies this`history, this`notified, this`forwarded, hosts.Values
      ensures CoreView() == HandleHost(old(CoreView()), res.id[5..], res)
    {
      var hID := res.id[5..];
      if hID !in hosts {
        return;
      }
      ghost var before, after := CoreView(), HandleHost(CoreView(), hID, res);
      var wasUp := hosts[hID].v.isUp;
      var h := hosts[hID].v.(isUp := res.status == 0, status := res.status, output := res.output);
      assert before.hosts[hID] == hosts[hID].v;
      StoreHost(hID, h);
      assert HostsView() == after.hosts;
      if wasUp != h.isUp {
        var state := "UP";
        if !h.isUp { state := "DOWN"; }
        LogStateChange(HostEntity(h.id), state, res.output);
        if !h.inDowntime {
          NotifyReactionner(h.id, state, res.status, res.output);
        }
      }
      assert history == after.history && notified == after.notified;
      ForwardToBroker(res);
      SameCore(CoreView(), after);
    }

    method HandleServiceResult(res: CheckResult)
      requires Valid() && !("HOST:" <= res.id)
      modifies this`history, this`notified, this`forwarded, services.Values
      ensures CoreView() == HandleService(old(CoreView()), res.id, res)
    {
      if res.id !in services {
        return;
      }
      ghost var before, after := CoreView(), HandleService(CoreView(), res.id, res);
      var oldState := services[res.id].v.currentState;
      var s := services[res.id].v.(currentState := res.status, output := res.output);
      assert before.services[res.id] == services[res.id].v;
      StoreService(res.id, s);
      assert ServicesView() == after.services;
      if oldState != s.currentState {
        LogStateChange(ServiceEntity(s.id), "CHANGE", res.output);
        var hostExists := s.hostName in hosts;
        assert hostExists ==> hosts[s.hostName].v == before.hosts[s.hostName];
        if !s.inDowntime && (!hostExists || !hosts[s.hostName].v.inDowntime) {
          NotifyReactionner(s.id, "ALERT", res.status, res.output);
        }
      }
      assert history == after.history && notified == after.notified;
      ForwardToBroker(res);
      SameCore(CoreView(), after);
    }

    method LogStateChange(entity: Entity, state: string, output: string)
      modifies this`history
      ensures HostsView() == old(HostsView()) && ServicesView() == old(ServicesView())
      ensures history == if opts.historyLog then old(history) + [LogLine(entity, state, output)] else old(history)
    {
      if opts.historyLog {
        history := history + [LogLine(entity, state, output)];
      }
    }

    method NotifyReactionner(id: string, kind: string, state: int, output: string)
      modifies this`notified
      ensures HostsView() == old(HostsView()) && ServicesView() == old(ServicesView())
      ensures notified == old(notified) + [Notification(id, kind, state, output)]
    {
      notified := notified + [Notification(id, kind, state, output)];
    }

    method ForwardToBroker(res: CheckResult)
      modifies this`forwarded
      ensures HostsView() == old(HostsView()) && ServicesView() == old(ServicesView())
      ensures forwarded == if opts.broker then old(forwarded) + [res] else old(forwarded)
    {
      if opts.broker {
        forwarded := forwarded + [res];
      }
    }
  }
}
