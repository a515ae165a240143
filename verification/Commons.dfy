/** An optional value. */
module Options {
  datatype Option<+T> = None | Some(value: T)
}

/** The source's 32-bit packet numbers. */
module PacketNumbers {
  type PacketNumber = n: int | -0x8000_0000 <= n < 0x8000_0000
}

/** What the latency control tells the request pipeline to do. */
module PipelineCommands {
  datatype Command = Keep | Increase | Decrease
}

/** Division by repeated subtraction. */
module Division {

  lemma QuotientStep(length: nat, n: nat)
    requires 0 < n <= length
    ensures length / n == (length - n) / n + 1 && length % n == (length - n) % n
  {
    var q, r := (length - n) / n, (length - n) % n;
    assert length == (q + 1) * n + r;
    QuotientUnique(length, n, q + 1, r);
  }

  lemma QuotientUnique(length: nat, n: nat, q: nat, r: nat)
    requires n > 0 && length == q * n + r && r < n
    ensures length / n == q && length % n == r
  {
    var q', r' := length / n, length % n;
    assert length == q' * n + r';
    if q > q' {
      MultipleStep(q', q, n);
    } else if q < q' {
      MultipleStep(q, q', n);
    }
  }

  lemma {:induction false} MultipleStep(a: nat, b: nat, n: nat)
    requires a < b
    ensures a * n + n <= b * n
    decreases b
  {
    if a + 1 < b {
      MultipleStep(a, b - 1, n);
    }
  }
}
