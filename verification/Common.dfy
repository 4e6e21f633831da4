/** What several modules share: an optional value, and a few functions on reals. */
module Common {

  datatype Option<T> = None | Some(value: T)

  function Min(a: real, b: real): real {
    if a < b then a else b
  }

  function Max(a: real, b: real): real {
    if a < b then b else a
  }

  function Clamp(x: real, lo: real, hi: real): real {
    Min(Max(x, lo), hi)
  }

  // The part a of a whole w.
  function Part(a: real, w: real): real {
    a * w
  }
}
