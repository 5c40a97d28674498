# constexpr_test in Dafny

A model of the logic in `constexpr_test/main.cpp`, a small C++ demonstration of
`constexpr` evaluation. The file holds two pieces of behaviour, one module each:

- `IntPower` (`int_power.dfy`): `pow(base, exp)`, which starts an accumulator at 1
  and multiplies it by `base` in a `for` loop that runs `exp` times. C++ `int` is the
  newtype `int32`. `Pow` is a method with that loop, proved against the mathematical
  power `Power`. A negative exponent runs the loop zero times and gives 1.
  Signed overflow is undefined behaviour in C++, so `Pow` requires `NoOverflow`: for
  `exp >= 0` the final `base^exp` fits in an `int`. `IntermediateFits` shows that every
  partial product the loop computes then fits as well, so the precondition says
  exactly that no multiplication overflows.
- `Geometry` (`point.dfy`): the class `Point` with fields `x` and `y`, one constructor
  whose two arguments default to 0 (as in C++), the getters `XValue`/`YValue` (functions
  that only read `this`) and the setters `SetX`/`SetY` (methods that overwrite one field
  in place). `Coords` is the value a point holds. `MidPoint` and `Reflection` are
  methods that create a new point, like the C++ functions that return a new `Point`
  by value. They take their inputs without a `modifies` clause, so the inputs are
  left unchanged. `Reflection` default-constructs its result and then calls the two
  setters, as the source does. Their results are specified by the pure functions
  `MidPointOf` and `ReflectionOf`, and the lemmas state the properties of those.
  Coordinates are `real`, not IEEE doubles.

## Model

| member | source | states |
|---|---|---|
| `IntPower.Pow` | constexpr_test/main.cpp:20-27 | without overflow the result is exactly `base^exp` for `exp >= 0`, so `pow(b, 0) == 1`; for `exp <= 0` the result is 1, with no inverse and no error |
| `IntPower.IntermediateFits` | constexpr_test/main.cpp:24 | if `b^n` fits in a 32-bit `int`, so does every `b^i` with `i <= n`, so no partial product of the loop overflows |
| `IntPower.PowStep` | constexpr_test/main.cpp:24 | stated about the reference `Power`: `Power(b, e+1) == b * Power(b, e)` for `e >= 0` (one unfolding of the definition), and when `Power(b, e+1)` fits in an `int` so does `Power(b, e)`, so `Pow(b, e)` may be called whenever `Pow(b, e+1)` may; `Pow`'s second ensures carries both facts over to `pow` |
| `Geometry.Point.constructor` | constexpr_test/main.cpp:33-36 | `Point(a, b)` stores exactly `a` and `b`; with the arguments left out, `Point()` has both coordinates 0 |
| `Geometry.Point.XValue` | constexpr_test/main.cpp:38 | returns the stored `x`; it is a function that only reads `this`, so it cannot change state |
| `Geometry.Point.YValue` | constexpr_test/main.cpp:39 | returns the stored `y`; it is a function that only reads `this`, so it cannot change state |
| `Geometry.Point.SetX` | constexpr_test/main.cpp:41 | `x` becomes the new value and `y` is left unchanged |
| `Geometry.Point.SetY` | constexpr_test/main.cpp:42 | `y` becomes the new value and `x` is left unchanged |
| `Geometry.MidPointOf` | constexpr_test/main.cpp:52 | each result coordinate is equally far from the two input coordinates, which makes it their mean `(a+b)/2` |
| `Geometry.ReflectionOf` | constexpr_test/main.cpp:59-60 | each result coordinate is the negation of the input's (they sum to 0) |
| `Geometry.MidPoint` | constexpr_test/main.cpp:50-53 | returns a newly created point holding the midpoint of the two inputs' coordinates; the inputs are not modified |
| `Geometry.Reflection` | constexpr_test/main.cpp:55-63 | returns a newly created point holding the negated coordinates of `p`, built by default construction and the two setters; `p` is not modified |
| `Geometry.MidPointSymmetric` | constexpr_test/main.cpp:52 | the midpoint does not depend on the order of its arguments |
| `Geometry.MidPointBetween` | constexpr_test/main.cpp:52 | each midpoint coordinate lies between the two input coordinates |
| `Geometry.ReflectionInvolutive` | constexpr_test/main.cpp:55-63 | reflecting twice gives back the original coordinates |
| `Geometry.ReflectionOfMidPoint` | constexpr_test/main.cpp:50-63 | how the two operations combine: reflecting a midpoint (as `main` does with `reflection(midPoint(p1, p2))`) gives the midpoint of the two reflected points |
| `Geometry.MainPoints` | constexpr_test/main.cpp:102-107 | the points built in `main`: the midpoint of (9.4, 27.7) and (28.8, 5.3) is (19.1, 16.5), and its reflection is (-19.1, -16.5), computed over the reals |

## Left out

- IEEE-754 semantics of `double`: rounding, overflow to infinity, NaN and signed zero. Coordinates are `real`, so the sum and division by 2 in `midPoint` and the literals of `main` are exact; `MidPointBetween` would fail for doubles whose sum overflows to infinity, NaN does not exist, and `reflection(Point())` gives 0 rather than `-0.0`.
- Signed overflow in `pow`: C++ leaves it undefined, so `Pow` excludes it with a precondition rather than giving it a wrap-around meaning.
- The `constexpr` and `noexcept` qualifiers: whether a value is known at compile time has no run-time behaviour to model, and Dafny has no counterpart.
- The parts of `main` that show which `constexpr`/`const` declarations and `std::array` sizes the compiler accepts (constexpr_test/main.cpp:68-100): these are compiler acceptance rules, not run-time behaviour.
- The fixed exit status `return 1` of `main` and the `<iostream>`/`<array>` includes: process plumbing with no logic.
- Value semantics of `Point`: C++ returns and copies points by value, while the model returns a newly allocated object (`fresh`), which likewise shares nothing with the inputs.
