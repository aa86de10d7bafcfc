/** Index space of buffers and kernels: regions are finite sets of points. */
module Grid {

  datatype Point = Point(x: nat, y: nat, z: nat)

  type Region = set<Point>

  /** Access modes in the order in which the generator visits them. */
  datatype Mode = Atomic | DiscardReadWrite | DiscardWrite | Read | ReadWrite | Write

  const ALL_MODES: seq<Mode> := [Atomic, DiscardReadWrite, DiscardWrite, Read, ReadWrite, Write]

  predicate IsProducer(m: Mode) {
    m != Read
  }

  predicate IsConsumer(m: Mode) {
    m != DiscardReadWrite && m != DiscardWrite
  }

  /** One point of one buffer. */
  datatype Cell = Cell(bid: nat, point: Point)
}
