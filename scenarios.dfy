/**
 * Clients of InflaterPool that use nothing but its contracts, walking through the
 * behaviour each capacity policy promises.
 */
module Scenarios {
  import opened Inflaters
  import opened JettyUtil
  import PoolSpec

  /**
   * Capacity 2: three inflaters are created, used and released in order; the first
   * two are kept, the third is ended, and the next acquire hands back the first one,
   * reset.
   */
  method BoundedPool() {
    var p := new InflaterPool(2, true);
    var a := p.Acquire();
    var b := p.Acquire();
    var c := p.Acquire();
    assert a != b && b != c && a != c;
    assert a.nowrap && b.nowrap && c.nowrap;
    a.Inflate();
    b.Inflate();
    c.Inflate();
    p.Release(a);
    assert p.Idle() == [a];
    p.Release(b);
    assert p.Idle() == [a, b];
    p.Release(c);
    assert c.state == Ended && p.Idle() == [a, b];
    var d := p.Acquire();
    assert d == a && d.state == Lifecycle.Reset;
    assert p.Idle() == [b];
  }

  /** Capacity 0: an inflater that was released is ended, and the next acquire creates another. */
  method DisabledPool() {
    var p := new InflaterPool(0, false);
    var a := p.Acquire();
    p.Release(a);
    assert a.state == Ended;
    var b := p.Acquire();
    assert b != a && b.state == Fresh && !b.nowrap;
  }

  /** A negative capacity: nothing released is ever ended, and acquire hands inflaters back in release order. */
  method UnboundedPool() {
    var p := new InflaterPool(-1, false);
    var a := p.Acquire();
    var b := p.Acquire();
    p.Release(a);
    p.Release(b);
    p.Release(null);
    assert a.state == Lifecycle.Reset && b.state == Lifecycle.Reset && p.Idle() == [a, b];
    var x := p.Acquire();
    var y := p.Acquire();
    assert x == a && y == b && p.Idle() == [];
  }
}
