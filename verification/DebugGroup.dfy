/** CGroupDebugRT: a group's log and trace ring, as objects of the sizes the library gives them. */
module DebugGroups {
  import opened Registry
  import opened TraceGroups
  import opened LogGroups
  import opened RegistryContents

  class DebugGroup {
    const logger: LogGroup
    const tracer: TraceGroup

    /** Init: a log of 128 chunks, which holds 126 logs, and a ring of 1000 chunks, both empty; and the default format.
        It is what the tables record of a new group. */
    constructor Init()
      ensures logger.Valid() && tracer.Valid() && fresh(logger.fifo) && fresh(tracer.area)
      ensures logger.fifo.buf.Length == 128 && logger.fifo.Capacity() == 126 && logger.Logs() == []
      ensures tracer.area.buf.Length == 1000 && forall i :: 0 <= i < 1000 ==> !Live(tracer.Slots()[i])
      ensures logger.Logs() == FreshGroup().logs && tracer.formats == NamesOf(FreshGroup().formats)
      ensures |tracer.Slots()| == |FreshGroup().slots|
      ensures forall i :: 0 <= i < 1000 ==> (Live(tracer.Slots()[i]) <==> Live(FreshGroup().slots[i]))
    {
      logger := new LogGroup.Reset(128);
      tracer := new TraceGroup.Reset(1000);
    }
  }
}
