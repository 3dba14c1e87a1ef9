# image-sorter: sorting an image's samples along one axis

The program loads an RGB image, sorts its sample values along one axis and
shows the result. Its only logic is `sort_image(image, axis=-1)`, which asks
NumPy for `np.sort(image, kind='mergesort', axis=axis)`. The image is a
three-dimensional array of integer samples in [0, 255], indexed by (row,
column, channel). Sorting along an axis sorts each one-dimensional line
running along that axis in ascending order and writes it back in its place.
The sort is stable. Shape is unchanged, and no sample moves from one line to
another. `main` sorts along axis 0. That sorts every (column, channel) line
by height.

The model has two modules:

- `MergeSort` (`merge_sort.dfy`): a top-down stable merge sort on sequences,
  ordered by an integer key. `Sort` is its use on integer samples. The module
  proves that the output is ascending and a permutation of the input, and
  that equal keys keep their input order. It also proves that an ascending
  permutation is unique. So for integer samples any correct sort gives the
  same output, and sorting twice equals sorting once.
- `ImageSort` (`image_sort.dfy`): images as `seq<seq<seq<int>>>`, with
  `ShapeOf` and `Rectangular` standing in for an ndarray's shape. `Line`
  extracts the slice through a position along an axis. `SortAlong` is
  `np.sort` for an axis in 0..2. `SortImage` takes the source's axis
  argument with its default of -1. It normalises the axis the way NumPy does
  (-3..-1 count from the end) and returns `Failure(AxisOutOfRange)` for any
  other integer axis. `MainSort` is the axis-0 call made in `main`.

## Model

| member | source | states |
|---|---|---|
| MergeSort.MergePermutes | main.py:40 | `Merge`, the merge step of the sort: merging two sequences yields exactly the elements of both, none lost or added |
| MergeSort.MergeOrdered | main.py:40 | merging two key-ordered sequences gives a key-ordered sequence |
| MergeSort.MergeSortPermutes | main.py:40 | `MergeSortBy`, the top-down merge sort, returns a permutation (same multiset) of its input |
| MergeSort.MergeSortOrdered | main.py:40 | the merge sort returns a sequence ordered by key |
| MergeSort.Sort | main.py:40 | sorting a line of samples gives an ascending line with exactly the same samples |
| MergeSort.MergeStable | main.py:40 | merging two key-ordered sequences puts, on every key, the first input's elements with that key before the second's, each in its original order |
| MergeSort.MergeSortStable | main.py:40 | the sort is stable: for every key, the elements with that key appear in the output in exactly their input order |
| MergeSort.SortedPermutationsEqual | main.py:40 | two ascending sequences with the same multiset of samples are equal |
| MergeSort.SortIsUnique | main.py:40 | any ascending permutation of a line is exactly what `Sort` returns, so any correct sort of integers agrees with the merge sort |
| MergeSort.SortOfSorted | main.py:40 | sorting an already ascending line leaves it unchanged |
| MergeSort.SortIdempotent | main.py:40 | sorting a line twice gives the same result as sorting it once |
| ImageSort.SortAlong | main.py:40 | sorting along an axis returns a rectangular image with exactly the input's height, width and channel count |
| ImageSort.NormalizeAxis | main.py:30-40 | an axis argument is accepted exactly when it lies in [-3, 2], and an accepted axis names the same dimension modulo 3 |
| ImageSort.SortImage | main.py:30-40 | `sort_image` fails exactly for an axis outside [-3, 2]; otherwise it returns an image of the input's shape that is `SortAlong` on the dimension the normalised axis names |
| ImageSort.SortImageSortsLines | main.py:30-40 | for every axis in [-3, 2], each line of `sort_image`'s result along the named dimension is the ascending sort of the input line through the same position |
| ImageSort.LineOfSortAlong | main.py:40 | every line of the result along the sorted axis is the sorted copy of the input line through the same position |
| ImageSort.SortAlongSortsEveryLine | main.py:40 | every output line along the axis is ascending and has the same multiset of samples as the matching input line |
| ImageSort.SortAlongIsUnique | main.py:40 | the result is the only image of the input's shape whose lines along the axis are ascending permutations of the input's lines |
| ImageSort.SortAlongIdempotent | main.py:40 | sorting the sorted image again along the same axis changes nothing |
| ImageSort.LinesAreIndependent | main.py:40 | an output line depends only on the input line through the same position; two images that agree on that line give the same output line |
| ImageSort.SortAlongKeepsRange | main.py:40 | if every input sample lies in [lo, hi], so does every output sample |
| ImageSort.DefaultAxisSortsEachPixel | main.py:30-40 | with the default axis, `sort_image(image)` equals `sort_image(image, 2)` and replaces each pixel's channel samples by their ascending sort |
| ImageSort.MainSortsColumns | main.py:42-44 | `MainSort`, the axis-0 sort in `main`, succeeds on an RGB image; each output (column, channel) line is the sorted input line, and the result is still an RGB image with samples in [0, 255] |

## Left out

- `read_image` (main.py:8-18): file I/O through `cv2.imread` and the BGR-to-RGB conversion of `cv2.cvtColor`. The model takes its output as given. `IsRgbImage` states what it delivers: a rectangular image with 3 channels and samples in [0, 255].
- `show_image` (main.py:20-28) and `FIGSIZE` (main.py:6): display through matplotlib, which blocks until the window closes.
- The hard-coded `lena.png` path and the script entry point (main.py:43, main.py:48-49): plumbing. The transform that `main` applies is modelled as `MainSort`.
- Colour quantisation and a per-value masking helper: main.py has neither, so there is no code to model.
- Sample width: NumPy holds the samples as 8-bit unsigned integers. The model uses unbounded integers. Sorting only permutes samples, so no value can overflow. `SortAlongKeepsRange` shows that the range [0, 255] is preserved.
- Sort algorithm: NumPy documents that it may carry out `kind='mergesort'` on small integer types with a radix sort. The model uses the merge sort that the source names. `SortIsUnique` shows that the two cannot differ on integer samples.
- Zero-sized dimensions: an image of height 0, or width 0, is represented with every later dimension 0 (`ShapeOf`). The shape `(0, w, 3)` is therefore not told apart from `(0, 0, 0)`. No line has any samples in either case.
- `axis=None`: NumPy then flattens the array and sorts it as one line. The model's axis is an integer, so this call is not modelled; `main` does not make it.
- NumPy accepts arrays of any rank. The model covers the three-dimensional image arrays that `sort_image` is given.
