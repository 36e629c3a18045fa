/** The sink as it is written. The remote calls of Run are not made here; what they
    achieve is in SinkFixpoint. */
module K8SSinks {
  import opened Common
  import opened KubeTypes
  import opened SinkState

  class K8SSink {
    const lower: string -> string

    var sourceServices: map<string, string>
    var keyToName: map<string, string>
    var serviceMap: set<string>
    var serviceMapConsul: map<string, Service>
    var open: bool
    var buffered: bool
    var phase: Phase
    ghost var last: set<Item>

    ghost function St(): State
      reads this
    {
      State(sourceServices, keyToName, serviceMap, serviceMapConsul, open, buffered, phase, last)
    }

    /** Cached services are filed under their own names. */
    ghost predicate Valid()
      reads this
    {
      NamesOk(St())
    }

    constructor (lower: string -> string)
      ensures this.lower == lower && St() == INIT && Valid()
    {
      this.lower := lower;
      sourceServices, keyToName, serviceMap, serviceMapConsul := map[], map[], {}, map[];
      open, buffered, phase, last := false, false, NotStarted, {};
    }

    method SetServices(svcs: map<string, string>)
      requires Valid()
      modifies this
      ensures Valid() && Step(lower, old(St()), Event.SetServices(svcs), St())
    {
      var lowercased: map<string, string> := map[];
      var todo := svcs.Keys;
      while todo != {}
        invariant todo <= svcs.Keys
        invariant forall n | n in svcs && n !in todo :: lower(n) in lowercased
        invariant forall k | k in lowercased :: exists n ::
            n in svcs && lower(n) == k && lowercased[k] == lower(svcs[n])
      {
        var n :| n in todo;
        todo := todo - {n};
        lowercased := lowercased[lower(n) := lower(svcs[n])];
      }
      ghost var s := St();
      sourceServices := lowercased;
      TriggerSync();
      StepKeepsNames(lower, s, Event.SetServices(svcs), St());
    }

    method Upsert(key: string, raw: Option<Service>)
      requires Valid()
      modifies this
      ensures Valid() && Step(lower, old(St()), Event.Upsert(key, raw), St())
    {
      if raw.None? {
        return;
      }
      ghost var s := St();
      var service := raw.value;
      keyToName := keyToName[key := service.name];
      serviceMap := serviceMap + {service.name};
      if "consul" in service.labels && service.labels["consul"] == "true" {
        serviceMapConsul := serviceMapConsul[service.name := service];
        TriggerSync();
      }
      StepKeepsNames(lower, s, Event.Upsert(key, raw), St());
    }

    method Delete(key: string)
      requires Valid()
      modifies this
      ensures Valid() && Step(lower, old(St()), Event.Delete(key), St())
    {
      if key !in keyToName {
        TriggerSync();
        return;
      }
      ghost var s := St();
      var name := keyToName[key];
      keyToName := keyToName - {key};
      serviceMap := serviceMap - {name};
      serviceMapConsul := serviceMapConsul - {name};
      if name in sourceServices {
        TriggerSync();
      }
      StepKeepsNames(lower, s, Event.Delete(key), St());
    }

    /** trigger */
    method TriggerSync()
      modifies this`buffered
      ensures buffered == (open || old(buffered))
    {
      if open {
        buffered := true;
      }
    }

    /** The start of Run. */
    method Start()
      requires Valid() && phase.NotStarted?
      modifies this
      ensures Valid() && Step(lower, old(St()), Event.Start, St())
    {
      open, buffered, phase := true, true, Waiting;
    }

    /** The loop of Run takes a message. */
    method Receive()
      requires Valid() && phase.Waiting? && buffered
      modifies this
      ensures Valid() && Step(lower, old(St()), Event.Receive, St())
    {
      buffered, phase := false, Received;
    }

    /** While coalescing it takes another one. */
    method Coalesce()
      requires Valid() && phase.Received? && buffered
      modifies this
      ensures Valid() && Step(lower, old(St()), Event.Coalesce, St())
    {
      buffered := false;
    }

    /** The calls have been made and the loop waits again. */
    method Finish()
      requires Valid() && phase.Applying?
      modifies this
      ensures Valid() && Step(lower, old(St()), Event.Finish, St())
    {
      phase := Waiting;
    }

    /** The locked section of the Run loop. */
    method Evaluate() returns (create: seq<Service>, update: seq<Service>, delete: seq<string>)
      requires Valid() && phase.Received?
      modifies this
      ensures Valid() && Step(lower, old(St()), Event.Evaluate, St())
      ensures CreateList(old(St()), {}, create) && UpdateList(old(St()), {}, update)
          && DeleteList(old(St()), {}, delete)
    {
      ghost var items := Items(St());
      create, update, delete := CrudList();
      last, phase := items, Applying;
    }

    method CrudList() returns (create: seq<Service>, update: seq<Service>, delete: seq<string>)
      requires Valid()
      modifies this`serviceMapConsul
      ensures Valid() && serviceMapConsul == Retargeted(old(St()))
      ensures CreateList(old(St()), {}, create) && UpdateList(old(St()), {}, update)
          && DeleteList(old(St()), {}, delete)
    {
      create, update, delete := [], [], [];
      ghost var s := St();
      var todo := sourceServices.Keys;
      while todo != {}
        invariant todo <= sourceServices.Keys
        invariant Edited(s, todo, serviceMapConsul) && CreateList(s, todo, create) && UpdateList(s, todo, update)
      {
        var consulName :| consulName in todo;
        create, update := CrudOne(consulName, s, todo, create, update);
        todo := todo - {consulName};
      }
      assert serviceMapConsul == Retargeted(s);
      delete := DeleteNames(s);
    }

    /** The body of the loop over the source services. */
    method CrudOne(consulName: string, ghost s: State, ghost todo: set<string>, create: seq<Service>,
        update: seq<Service>)
      returns (create': seq<Service>, update': seq<Service>)
      requires NamesOk(s) && sourceServices == s.sourceServices && serviceMap == s.serviceMap
      requires consulName in todo && todo <= sourceServices.Keys
      requires Edited(s, todo, serviceMapConsul) && CreateList(s, todo, create) && UpdateList(s, todo, update)
      modifies this`serviceMapConsul
      ensures Edited(s, todo - {consulName}, serviceMapConsul)
      ensures CreateList(s, todo - {consulName}, create') && UpdateList(s, todo - {consulName}, update')
    {
      CreateMore(s, todo, create, consulName);
      UpdateMore(s, todo, update, consulName);
      create', update' := create, update;
      var consulDNS := sourceServices[consulName];
      if consulName in serviceMapConsul {
        var svc := serviceMapConsul[consulName];
        if svc.externalName == consulDNS {
          return;
        }
        svc := Retarget(svc, consulDNS);
        serviceMapConsul := serviceMapConsul[consulName := svc];  // edited in place
        update' := update + [svc];
        return;
      }
      if consulName in serviceMap {
        return;
      }
      create' := create + [NewService(consulName, consulDNS)];
    }

    method DeleteNames(ghost s: State) returns (delete: seq<string>)
      requires serviceMapConsul.Keys == s.serviceMapConsul.Keys && sourceServices == s.sourceServices
      ensures DeleteList(s, {}, delete)
    {
      delete := [];
      var todo := serviceMapConsul.Keys;
      while todo != {}
        invariant todo <= serviceMapConsul.Keys
        invariant DeleteList(s, todo, delete)
      {
        var k :| k in todo;
        todo := todo - {k};
        if k !in sourceServices {
          delete := delete + [k];
        }
      }
    }
  }
}
