/**
 The counter aggregate: a value and a version, and the three operations on it.
 This is the sequential specification that the stored rows, the outbox and the
 projection are measured against.
 */
module CounterDomain {
  import opened Options

  type CounterId = string

  datatype Operation = Increment | Decrement | Reset

  /** `updated_at` and the identifier carry no behaviour and are left out. */
  datatype Counter = Counter(value: int, version: int) {

    function Incremented(): Counter {
      Counter(value + 1, version + 1)
    }

    function Decremented(): Counter {
      Counter(value - 1, version + 1)
    }

    function WasReset(): Counter {
      Counter(0, version + 1)
    }

    function Apply(op: Operation): Counter {
      match op
      case Increment => Incremented()
      case Decrement => Decremented()
      case Reset => WasReset()
    }
  }

  const NEW_COUNTER := Counter(0, 0)

  /** The row a reader sees, or the fresh counter when there is no row. */
  function OrNew(row: Option<Counter>): Counter {
    match row
    case Some(c) => c
    case None => NEW_COUNTER
  }

  const I64_MAX: int := 0x7fff_ffff_ffff_ffff

  predicate FitsI64(x: int) {
    -I64_MAX - 1 <= x <= I64_MAX
  }
}
