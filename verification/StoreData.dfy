// The values that the store, the agent and the balancer pass around
// (common/store/data.go, common/store/watch.go, agent/sync_instances.go).
module StoreData {
  import opened Prelude

  datatype ContainerRule = ContainerRule(selector: map<string, string>, instancePort: int)

  datatype Service = Service(address: Option<IPPort>, instancePort: int, protocol: string)

  datatype Instance = Instance(host: string, address: Option<IPPort>, labels: map<string, string>)

  datatype IngressInstance = IngressInstance(weight: int)

  datatype ServiceInfo = ServiceInfo(
    service: Service,
    instances: map<string, Instance>,
    containerRules: map<string, ContainerRule>,
    ingressInstances: map<IPPort, IngressInstance>)

  datatype QueryServiceOptions = QueryServiceOptions(
    withInstances: bool, withContainerRules: bool, withIngressInstances: bool)

  // None is a deleted service.
  datatype ServiceUpdate = ServiceUpdate(services: map<string, Option<ServiceInfo>>, reset: bool)

  datatype ServiceChange = ServiceChange(name: string, serviceDeleted: bool)

  // A docker container, by its labels as rules see them.
  datatype Container = Container(id: string, labels: map<string, string>, details: string)

  // None is a container that is gone.
  datatype ContainerUpdate = ContainerUpdate(containers: map<string, Option<Container>>, reset: bool)

  datatype InstanceKey = InstanceKey(service: string, instance: string)

  // None is an instance that is withdrawn.
  datatype InstanceUpdate = InstanceUpdate(instances: map<InstanceKey, Option<Instance>>, reset: bool)

  // No entry withdraws an instance.
  ghost predicate AllGiven(entries: map<InstanceKey, Option<Instance>>) {
    forall k :: k in entries ==> entries[k].Some?
  }

  // A consumer's copy after setting the non-nil entries of an update and
  // deleting the nil ones.
  function Overlay(copy: map<InstanceKey, Instance>, entries: map<InstanceKey, Option<Instance>>)
    : map<InstanceKey, Instance>
  {
    map k | k in copy.Keys + entries.Keys && (k in entries ==> entries[k].Some?) ::
      if k in entries then entries[k].value else copy[k]
  }

  // A consumer's copy after an update.
  function Folded(copy: map<InstanceKey, Instance>, update: InstanceUpdate): map<InstanceKey, Instance> {
    Overlay(if update.reset then map[] else copy, update.instances)
  }

  lemma OverlayGet(copy: map<InstanceKey, Instance>, entries: map<InstanceKey, Option<Instance>>, k: InstanceKey)
    ensures Get(Overlay(copy, entries), k) == if k in entries then entries[k] else Get(copy, k)
  {
  }
}
