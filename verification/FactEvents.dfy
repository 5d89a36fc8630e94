/** Which event types are vectorized (internal/bus/util.go). */
module FactEvents {

  const FACT_TYPES: seq<string> :=
    ["pcas.memory.create.v1", "pcas.user.fact.v1", "user.note.v1", "user.reminder.v1", "user.task.v1", "user.memory.v1"]

  predicate IsFact(eventType: string) {
    eventType in FACT_TYPES
  }

  method IsFactEvent(eventType: string) returns (fact: bool)
    ensures fact <==> IsFact(eventType)
  {
    for i := 0 to |FACT_TYPES|
      invariant eventType !in FACT_TYPES[..i]
    {
      if FACT_TYPES[i] == eventType {
        return true;
      }
    }
    assert FACT_TYPES[..|FACT_TYPES|] == FACT_TYPES;
    return false;
  }
}
