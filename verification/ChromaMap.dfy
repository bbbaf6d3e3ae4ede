/** What the transforms of subsampled chroma compute: their samples against the linear maps they round. */
module ChromaMap {
  import opened Operators
  import opened Blocks
  import opened LinearLaws

  /** Plus on the left or upper sample of two, minus on the other. */
  function Half(z: nat, c: int): int {
    if z % 2 == 0 then c else -c
  }

  /** Three coefficients on two by two samples: one alternates along the rows, one down the columns, one both ways. */
  function Pattern(a: int, b: int, c: int, y: nat, x: nat): int {
    Half(x, a) + Half(y, b) + Half(y, Half(x, c))
  }

  /** The Hadamard operator on the mean and a pattern. */
  lemma PatternLaw(v: seq<int>, i: nat, j: nat)
    requires |v| == 4 && i < 2 && j < 2
    ensures Near(T2x2h(v, 0)[2 * i + j], 2, v[0] + Pattern(v[1], v[2], v[3], j, i), -1, 1)
  {
    hide T2x2h;
    HadamardLaw(v, 0);
  }

  lemma PatternTurned(a: int, b: int, c: int, y: nat, x: nat)
    ensures Pattern(a, b, c, y, x) == Pattern(b, a, c, x, y)
  {}

  /** The 4:2:0 transform: half of the first coefficient and of a pattern of the other three. */
  lemma Chroma420Law(v: seq<int>, y: nat, x: nat)
    requires |v| == 4 && y < 2 && x < 2
    ensures Near(Chroma420(v)[2 * y + x], 2, v[0] + Pattern(v[1], v[2], v[3], y, x), -1, 1)
  {
    hide T2x2h, Pattern;
    PatternLaw(v, x, y);
  }

  /**
   The 4:2:2 transform: the fifth coefficient tells the upper two rows from the lower two, and each half has a pattern of
   its own.
   */
  lemma Chroma422Law(v: seq<int>, y: nat, x: nat)
    requires |v| == 8 && y < 4 && x < 2
    ensures Near(Chroma422(v)[2 * y + x], 4,
                 if y < 2 then 2 * v[0] - v[4] + 2 * Pattern(v[1], v[2], v[3], y, x)
                 else 2 * v[0] + v[4] + 2 * Pattern(v[5], v[6], v[7], y, x), -3, 2)
  {
    hide T2x2h, InverseT2pt, Pattern;
    T2ptLaw([v[0], v[4]]);
    var pair := InverseT2pt([v[0], v[4]]);
    if y < 2 {
      PatternLaw([pair[0], v[1], v[2], v[3]], x, y);
    } else {
      PatternLaw([pair[1], v[6], v[5], v[7]], y - 2, x);
      PatternTurned(v[6], v[5], v[7], x, y - 2);
      SameHalf(v[5], v[6], v[7], y, x);
    }
  }

  lemma SameHalf(a: int, b: int, c: int, y: nat, x: nat)
    requires y >= 2
    ensures Pattern(a, b, c, y, x) == Pattern(a, b, c, y - 2, x)
  {}
}
