/** What a reader hands to a collection: the machines in order, how the stream ended, what it reported. */
module Streams {
  import opened Common
  import opened Domain

  /** An adapter exception after translation: only a refused login is told apart. */
  datatype Fault = AuthFault(message: string) | OtherFault(message: string)

  /** One raw object, and whether the mapper turns it into a machine or raises. */
  datatype RawObject = Mappable(vm: VirtualMachine) | Unmappable(fault: Fault)

  datatype StreamEnd = Exhausted | AuthLost(message: string) | Crashed(message: string)

  datatype Outcome = Outcome(collectedCount: nat, failed: bool, error: Option<string>)

  datatype Stream = Stream(vms: seq<VirtualMachine>, end: StreamEnd, outcomes: seq<Outcome>)

  /** The machines before the first object that cannot be mapped. */
  function Mapped(objects: seq<RawObject>): (vms: seq<VirtualMachine>)
    ensures |vms| <= |objects|
    ensures forall i | 0 <= i < |vms| :: objects[i] == Mappable(vms[i])
    ensures |vms| < |objects| ==> objects[|vms|].Unmappable?
  {
    if objects == [] || objects[0].Unmappable? then [] else [objects[0].vm] + Mapped(objects[1..])
  }

  /** Reading one more object that can be mapped. */
  lemma {:induction false} MappedPrefix(objects: seq<RawObject>, vms: seq<VirtualMachine>)
    requires |vms| <= |objects|
    requires forall i | 0 <= i < |vms| :: objects[i] == Mappable(vms[i])
    requires |vms| == |objects| || objects[|vms|].Unmappable?
    ensures Mapped(objects) == vms
  {
    if vms != [] {
      MappedPrefix(objects[1..], vms[1..]);
    }
  }
}
