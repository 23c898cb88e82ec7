/**
  The priority arithmetic of tasks.c on one control block: setting, inheriting and
  giving back priorities, and the event item value that follows them.
 */
module PriorityRules {
  import opened KernelConfig
  import opened TaskTables

  /** Event lists are in ascending value order, so a high priority is a low value. */
  function EventValueOf(priority: nat): TickType {
    if priority <= MAX_PRIORITIES then MAX_PRIORITIES - priority else 0
  }

  /** The event item value is left alone while an event group has borrowed it. */
  function WithEventValue(tcb: Tcb, priority: nat): Tcb {
    if tcb.eventValue < VALUE_IN_USE then tcb.(eventValue := EventValueOf(priority)) else tcb
  }

  /** vTaskPrioritySet: an inherited priority stays, the base priority is set whatever. */
  function SetPriority(tcb: Tcb, priority: nat): Tcb {
    if tcb.basePriority == priority then tcb
    else
      var t := if tcb.basePriority == tcb.priority then tcb.(priority := priority) else tcb;
      WithEventValue(t.(basePriority := priority), priority)
  }

  /** xTaskPriorityInherit */
  function Inherit(holder: Tcb, waiter: nat): Tcb {
    if holder.priority < waiter then WithEventValue(holder, waiter).(priority := waiter) else holder
  }

  /** xTaskPriorityDisinherit: one mutex fewer is held. */
  function Disinherit(holder: Tcb): Tcb
    requires holder.mutexesHeld > 0
  {
    var t := holder.(mutexesHeld := holder.mutexesHeld - 1);
    if t.priority != t.basePriority && t.mutexesHeld == 0
    then t.(priority := t.basePriority, eventValue := EventValueOf(t.basePriority))
    else t
  }

  /** vTaskPriorityDisinheritAfterTimeout */
  function DisinheritAfterTimeout(holder: Tcb, highestWaiting: nat): Tcb {
    var p := if holder.basePriority < highestWaiting then highestWaiting else holder.basePriority;
    if holder.priority != p && holder.mutexesHeld == 1
    then WithEventValue(holder.(priority := p), p)
    else holder
  }

  /** The event item value mirrors the priority in use, unless an event group has borrowed it. */
  predicate EventValueOk(tcb: Tcb) {
    tcb.eventValue >= VALUE_IN_USE || tcb.eventValue == EventValueOf(tcb.priority)
  }

  lemma InheritanceKeepsEventValue(tcb: Tcb, priority: nat)
    requires EventValueOk(tcb)
    ensures EventValueOk(Inherit(tcb, priority)) && EventValueOk(DisinheritAfterTimeout(tcb, priority))
    ensures tcb.mutexesHeld > 0 ==> EventValueOk(Disinherit(tcb))
  {
  }

  /** vTaskPrioritySet keeps the mirror exactly when the task runs at its base priority or gets the one it runs at. */
  lemma SetPriorityKeepsEventValueIff(tcb: Tcb, priority: nat)
    requires EventValueOk(tcb) && tcb.priority < MAX_PRIORITIES && priority < MAX_PRIORITIES
    requires tcb.eventValue < VALUE_IN_USE && tcb.basePriority != priority
    ensures EventValueOk(SetPriority(tcb, priority)) <==> tcb.basePriority == tcb.priority || priority == tcb.priority
  {
  }

  /** A task of base priority 2 running at 5: a new base priority of 9 is above it, and one of 3 is what the event list sees. */
  lemma BoostedTaskReprioritised()
    ensures var tcb := Tcb(5, 2, 1, 0, None, EventValueOf(5), None);
            && SetPriority(tcb, 9).priority == 5 && SetPriority(tcb, 9).basePriority == 9
            && EventValueOk(tcb) && !EventValueOk(SetPriority(tcb, 3))
  {
  }
}
