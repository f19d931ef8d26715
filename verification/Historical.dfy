/** A value and its predecessor, used as a change detector. */
module Historical {

  /** The two slots, newest first. */
  datatype History<T(==)> = History(now: T, before: T)
  {
    predicate Changed() { now != before }

    function Next(v: T): History<T> { History(v, now) }
  }

  class HistoricalValue<T(==)> {
    const values: array<T>

    ghost predicate Valid() { values.Length == 2 }

    function Contents(): History<T>
      requires Valid()
      reads values
    {
      History(values[0], values[1])
    }

    constructor (v: T)
      ensures Valid() && fresh(values)
      ensures Contents() == History(v, v)
    {
      values := new T[2](_ => v);
    }

    method Is(v: T) returns (b: bool)
      requires Valid()
      ensures b == (v == Contents().now)
    {
      b := v == values[0];
    }

    method Set(v: T)
      requires Valid()
      modifies values
      ensures Contents() == old(Contents()).Next(v)
    {
      values[1] := values[0];
      values[0] := v;
    }

    method HasChanged() returns (b: bool)
      requires Valid()
      ensures b == Contents().Changed()
    {
      b := values[0] != values[1];
    }

    method Equalize()
      requires Valid()
      modifies values
      ensures Contents().now == Contents().before == old(Contents()).now
    {
      values[1] := values[0];
    }
  }
}
