/** Two endpoints of type `P`, and every segment ever sent to either. */
module TwoSides {
  import opened Tcp

  datatype Side = A | B

  datatype Pair<P> = Pair(a: P, b: P, toA: set<Segment>, toB: set<Segment>)

  function Other(side: Side): Side {
    if side == A then B else A
  }

  function Local<P>(s: Pair<P>, side: Side): P {
    if side == A then s.a else s.b
  }

  function Inbox<P>(s: Pair<P>, side: Side): set<Segment> {
    if side == A then s.toA else s.toB
  }

  /** One side has become `p` and has handed `out` to the network. */
  function Update<P>(s: Pair<P>, side: Side, p: P, out: set<Segment>): Pair<P> {
    if side == A then s.(a := p, toB := s.toB + out) else s.(b := p, toA := s.toA + out)
  }
}
