# spriteutil in Dafny

A Dafny model of `spriteutil.py` from the sprite-splitting project. The file holds two pieces:

- **`Sprite`**, an axis-aligned box of pixels from `(x1, y1)` to `(x2, y2)`, both corners inclusive, with a label. Its constructor validates its five arguments with the nested `check_value`. Every argument must be an `int` whose text holds no minus sign, and the corners must not be inverted. On failure it raises `ValueError("Invalid coordinates")`. On success it stores the coordinates and the label, and caches `top_left` and `bottom_right`. The `top_left`, `width` and `height` properties read these back. The `label` property always raises, because it reads `__label` while the constructor stores `__lable`.
- **`find_most_common_color`**, which flattens an image column by column into a list and returns the list's statistical mode. The flattening loops over `x` on the outside and `y` on the inside. The mode follows `statistics.mode` from Python 3.8 on, which returns the first of the tied values in list order.

Files:

- `python.dfy` (module `Python`) models the parts of Python's runtime that the code relies on. It has argument values, `str()` of an `int`, the exceptions raised, and the results of calls that return or raise.
- `sprite.dfy` (module `Sprites`) holds `check_value` as a method with a loop, and the `Sprite` class. Its fields are `const` because the source assigns them once. `NewSprite` is the whole constructor call, which can raise. It also holds a client method, `ConstructionScenarios`, that checks some concrete calls. These include a degenerate box at the origin with label 0, which is accepted, and the default `None` arguments, a `True` argument, a negative coordinate and inverted corners, which are all rejected.
- `most_common_color.dfy` (module `MostCommonColor`) holds the image abstraction, the loop that builds the pixel list, and the specification of `statistics.mode`.

Three facts about the code that the model keeps:

- Every failed check raises `ValueError("Invalid coordinates")`.
- Label 0 and coordinate 0 are accepted, because only negative values are rejected. This holds although the docstring of `check_value` says "positive integer" (spriteutil.py:35).
- An image with no pixels raises `StatisticsError` from `statistics.mode`.

## Model

| member | source | states |
|---|---|---|
| `Python.MinusInIntToStringIffNegative` | spriteutil.py:41 | For a Python `int`, the test `"-" in str(element)` holds exactly when the integer is negative. |
| `Sprites.RejectedIffNotNatural` | spriteutil.py:40-42 | The per-argument test of `check_value` rejects a value exactly when it is not a non-negative `int`. This covers `None`, `bool` and every other non-`int` type. |
| `Sprites.CheckValue` | spriteutil.py:32-44 | `check_value` passes exactly when all five arguments are non-negative `int`s with `x1 <= x2` and `y1 <= y2`. Otherwise it raises `ValueError("Invalid coordinates")`. |
| `Sprites.NewSprite` | spriteutil.py:29-53 | Construction succeeds exactly on valid arguments and raises `ValueError("Invalid coordinates")` otherwise. A built sprite is fresh, keeps the given coordinates and label, and has `top_left == (x1, y1)` and `bottom_right == (x2, y2)`. |
| `Sprites.Sprite.constructor` | spriteutil.py:47-53 | Given ordered corners, the fields are set once to the arguments, and the cached corners are `(x1, y1)` and `(x2, y2)`. |
| `Sprites.Sprite.Label` | spriteutil.py:55-58 | Reading `label` never succeeds. It always raises `AttributeError`. |
| `Sprites.Sprite.TopLeft` | spriteutil.py:60-63 | `top_left` is the box's upper-left corner `(x1, y1)`. |
| `Sprites.Sprite.Width` | spriteutil.py:65-68 | `width` is at least 1 and is the number of pixel columns from `x1` to `x2`, inclusive. Its last column is `x1 + width - 1 == x2`. |
| `Sprites.Sprite.Height` | spriteutil.py:70-73 | `height` is at least 1 and is the number of pixel rows from `y1` to `y2`, inclusive. Its last row is `y1 + height - 1 == y2`. |
| `Sprites.SpanIsInterval` | spriteutil.py:65-73 | The range that `width` and `height` count holds each number from the first to the last coordinate once, in increasing order. |
| `MostCommonColor.Column` | spriteutil.py:24 | The inner comprehension lists column `x` top to bottom. It has `height` entries, and entry `y` is pixel `(x, y)`. |
| `MostCommonColor.ColumnsUpToAt` | spriteutil.py:22-24 | After `n` columns, the list has `n * height` entries, and pixel `(x, y)` sits at position `x * height + y`. |
| `MostCommonColor.ColumnsUpToEntry` | spriteutil.py:22-24 | Every position `k` of the list holds some pixel `(x, y)` of the columns scanned so far, with `k == x * height + y`. |
| `MostCommonColor.ColumnMajorLayout` | spriteutil.py:22-24 | The full list has `width * height` entries. It returns the position `x * height + y` of pixel `(x, y)`, where the list holds that pixel. |
| `MostCommonColor.InColumnMajorIffInImage` | spriteutil.py:22-24 | A value occurs in the flattened list exactly when some pixel of the image has it. |
| `MostCommonColor.ColumnMajorOrder` | spriteutil.py:23-24 | For `y, y' < height`, position `x' * height + y'` is at most position `x * height + y` if and only if `(x', y')` comes no later than `(x, y)` when pixels are ordered by column first, then by row within the column. |
| `MostCommonColor.ModeIndexFrom` | spriteutil.py:25 | The scan for the mode returns a position whose element no element outnumbers. Every earlier element is strictly less frequent. |
| `MostCommonColor.ModeIndex` | spriteutil.py:25 | The position of the mode is the first position whose element has the largest count. |
| `MostCommonColor.Mode` | spriteutil.py:25 | The mode of non-empty data occurs in the data, and no value occurs more often. |
| `MostCommonColor.StatisticsMode` | spriteutil.py:25 | `statistics.mode` raises `StatisticsError("no mode for empty data")` exactly on empty data. Otherwise it returns a value of the data that no value outnumbers. Every element before that value's first occurrence is strictly less frequent, which is the tie rule of Python 3.8 and later. |
| `MostCommonColor.ModeIsTheFirstMode` | spriteutil.py:25 | A value is what `statistics.mode` returns if and only if it occurs in the data, no value outnumbers it, and every earlier element is strictly less frequent. So the result with ties is determined. |
| `MostCommonColor.MostCommonColorOf` | spriteutil.py:22-25 | The most common colour of an image with pixels is a pixel value of the image. No value is the value of more pixels. |
| `MostCommonColor.FindMostCommonColor` | spriteutil.py:5-25 | Builds the column-major list in a loop and returns its mode, which is `MostCommonColorOf(image)`. An image with no pixels, where width or height is 0, raises `StatisticsError("no mode for empty data")`. |
| `MostCommonColor.MostCommonColorFirstAmongTies` | spriteutil.py:22-25 | If pixel `(x, y)` is as frequent as the result, then the result occurs at `(x, y)` or at an earlier pixel in column-major order. |

## Left out

- Image decoding and pixel access (`image.size`, `image.getpixel`) are not modelled. An image is its width, its height and a total lookup function from `(x, y)` to a pixel value of any type with equality.
- The internals of `statistics.mode` (`Counter`, `most_common`) are not modelled. The mode is specified by counts and by first position among ties.
- Tie behaviour before Python 3.8 is not modelled. Those versions raise `StatisticsError` when two values tie.
- Python's type system is not modelled. An argument is either exactly an `int` or some other value that carries its `str()` text. `True` and `None` are other values, since `type(True) != int`.
- The commented-out `duration`, `episode_id` and `__parse_episode_id` code is not modelled, because it is dead.
- `Sprites.Sprite.Label`: the model keeps the label, under its stored name `lable`, but the getter fails as it does in the code. No working getter exists.
- `bottom_right` has no getter in the code. The model keeps only the cached field and states it in the constructor's contract.
- spriteutil.py contains no region-extraction code, so the model has none.
- `Sprites.CheckValue`: `str()` of an `int` is modelled without the limit on digits for integer-to-string conversion. Python 3.11 and later, and the security releases 3.8.14, 3.9.14 and 3.10.7, raise `ValueError` when an `int` has more than 4300 decimal digits. On those versions, a sprite with such a huge argument fails with that error instead of the outcome the model gives. The model gives success for a huge non-negative argument, and the "Invalid coordinates" message for a huge negative one.
- `Python.MinusInIntToStringIffNegative`: it is stated for `str()` without the 4300-digit conversion limit. This is the same limit as in the line above.
