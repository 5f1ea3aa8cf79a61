/** CLog_group: one group's bounded log. */
module LogGroups {
  import opened Common
  import opened Machine64
  import opened MemAreas
  import opened Selection

  type LogEntry = Stamped<string>

  class LogGroup {
    const fifo: MemArea<LogEntry>

    ghost predicate Valid()
      reads this, fifo
    {
      fifo.Fifo() && fifo.buf.Length >= 3
    }

    /** The queued logs, oldest first. */
    ghost function Logs(): seq<LogEntry>
      reads this, fifo, fifo.buf
    {
      if Valid() then fifo.Contents() else []
    }

    /** Reset(false): an empty FIFO. */
    constructor Reset(size: nat)
      requires size >= 3
      ensures Valid() && Logs() == [] && fifo.buf.Length == size
      ensures fresh(fifo) && fresh(fifo.buf)
    {
      fifo := new MemArea.Setup(size);
    }

    /** AddLog: stamp the text with the clock and push it, dropping the oldest log while there is no room. */
    method AddLog(now: TimeSpec, text: string)
      requires Valid()
      modifies fifo, fifo.buf
      ensures Valid()
      ensures Logs() == LastN(fifo.Capacity(), old(Logs()) + [Stamped(now, text)])
    {
      PushDroppingOldest(fifo, Stamped(now, text));
    }

    /** GetLogEntry: the oldest log, or nothing. */
    method GetLogEntry() returns (res: Option<LogEntry>)
      requires Valid()
      modifies fifo
      ensures Valid()
      ensures old(Logs()) == [] ==> res == None && Logs() == []
      ensures old(Logs()) != [] ==> res == Some(old(Logs())[0]) && Logs() == old(Logs())[1..]
    {
      res := fifo.Pop();
    }
  }
}
