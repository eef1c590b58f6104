# skynet image pipeline and string utilities, modelled in Dafny

This project models the core of the skynet repository's ImageNet input
pipeline, its string utilities and its synset bookkeeping.

- **Sampler** (`sampler.dfy`) models `ReadImage` from
  `cuda-convnet/imagenetdata.py`. It draws (class, sample) pairs and groups
  them into numbered batches (`next`, `produceData`, `get_num_batches`).
  - In validation mode it keeps a round-robin cursor.
  - In training mode it picks at random.
  - The epoch counter is derived from the number of samples drawn, and the
    batch counter restarts when the epoch changes.
- **ImageTransform** (`transform.dfy`) models `ProcessImage.process_image`.
  - Each image gets a crop offset, which is random or half the slack.
  - The two crop assertions are checked, the crop is sliced and, optionally,
    mirrored.
  - The crop is reshaped into one column of the batch matrix, and the labels
    go into one row.
  - This file also models `PIL2array`, `clean_queue` and `get_data_dims`.
- **StrUtil** and **Murmur3** (`strutil.dfy`, `murmur.dfy`) model
  `StringPiece` from `cuda-convnet/src/common/strutil.cpp`, with `str`,
  `size` and `hash_value` from `util/string.h`.
  - A StringPiece is a `(data_, len_)` view into a buffer it does not own.
  - Its operations are the six constructors, `strip`, `split`, `==`,
    `hash`, `AsString`, `str` and `size`.
  - MurmurHash3_x64_128 is modelled with exact 64-bit wrap-around, because
    it works on `bv64`.
  - Also modelled: `strnstr`, and `ToString` of a string.
- **StringJoin** (`join.dfy`) models `JoinString` and `ToString` of a vector
  from `util/string.h`. It also proves that split and join undo each other.
- **Synsets** (`synsets.dfy`) models `imagenet/build-imagenet-batch.py`:
  - the `memoized` decorator, as a class with a cache;
  - `synids`, `synid_to_name`, `label_names` and `randsyn`, together with
    the Python string operations they rely on.
  - Those string operations are `str.split`, `re.split` with `maxsplit=1`,
    `basename`, slicing with negative bounds, and `dict` over a list of
    pairs.

Some things the programs read from outside become parameters of the model:

- the directory listing behind `synids`;
- the text of the synset file behind `synid_to_name`;
- the random numbers `randsyn` draws;
- the crop and flip dice of `process_image`.

An image file is represented by its path, and the label of an image is its
class number.

Three places in the source read differently from what the code around them
evidently means:

- **Validation cursor.** produceData counts a new epoch every `total_samples`
  draws (cuda-convnet/imagenetdata.py:120), which reads as one pass over the
  validation set per epoch. But `next` keeps one cursor per class and never
  restarts them (:139-144). So when classes differ in size, an epoch does not
  draw each image once. The model follows the code:
  `Sampler.TwoClassExample` and `Sampler.TwoClassReader` work this out for
  classes of 3 and 2 images, where the second epoch draws B0 twice and never
  draws A2.
- **get_num_batches** (:154) applies `ceil` to a Python 2 integer quotient,
  which is already rounded down. The commented-out `1.0 *` form on line 155
  takes the ceiling of the exact quotient (see Findings).
- **Crop height.** The slice on line 237 cuts the second axis with
  `crop_width`. The commented-out `im.crop` on line 236 uses `crop_height`,
  and so do the `crop_width * crop_height * 3` buffer on line 210 and the
  reshape on line 245 (see Findings).

For the last two points, the functions `Sampler.NumBatchesAsWritten` and
`ImageTransform.TransformAsWritten` model the code as written. The class
methods (`Sampler.ReadImage.GetNumBatches`,
`ImageTransform.ProcessImage.ProcessBatch` and the methods it calls) use the
corrected `Sampler.NumBatches` and `ImageTransform.Transform`. The lines under
"Left out" that start with those members' names say what this changes.

## Model

| member | source | states |
|---|---|---|
| `Murmur3.RotlInverse31` | cuda-convnet/src/common/strutil.cpp:145-147 | rotl64 loses no bits: rotating by 31 and then by 33 gives the word back |
| `Murmur3.Fmix` | cuda-convnet/src/common/strutil.cpp:135-143 | the finalisation mix maps 0 to 0 |
| `Murmur3.LoadStore` | cuda-convnet/src/common/strutil.cpp:149-151 | getblock reads eight bytes least significant first: loading the stored bytes of a word gives the word back |
| `Murmur3.StoreLoad` | cuda-convnet/src/common/strutil.cpp:149-151 | storing a loaded word gives back the same eight bytes |
| `Murmur3.EmptyKeySeedZero` | cuda-convnet/src/common/strutil.cpp:153-259 | the empty key with seed 0 hashes to (0, 0) |
| `Murmur3.BodyLoop` | cuda-convnet/src/common/strutil.cpp:169-190 | the body loop over the len / 16 blocks leaves (h1, h2) equal to the fold of one mixing round per block, starting from (seed, seed) |
| `Murmur3.Hash128Words` | cuda-convnet/src/common/strutil.cpp:153-256 | body loop, tail switch and finalisation together compute MurmurHash3_x64_128 of the key |
| `Murmur3.MurmurHash3` | cuda-convnet/src/common/strutil.cpp:153-259 | the two words written to out are h1 and h2 of MurmurHash3_x64_128 of the key with the seed |
| `StrUtil.StrLen` | cuda-convnet/src/common/strutil.cpp:21-23 | strlen is the offset of the first NUL byte, and no byte before it is NUL |
| `StrUtil.TrimLeftSuffix` | cuda-convnet/src/common/strutil.cpp:43-46 | the first loop of strip drops a prefix made only of whitespace and keeps the rest as it is |
| `StrUtil.TrimRightPrefix` | cuda-convnet/src/common/strutil.cpp:47-49 | the second loop of strip drops a suffix made only of whitespace and keeps the rest as it is |
| `StrUtil.StrippedEnds` | cuda-convnet/src/common/strutil.cpp:42-50 | a stripped piece is empty, or it starts and ends with a non-space byte |
| `StrUtil.StrippedInfix` | cuda-convnet/src/common/strutil.cpp:42-50 | the stripped piece is a contiguous part of the original piece |
| `StrUtil.StripIdempotent` | cuda-convnet/src/common/strutil.cpp:42-50 | stripping twice gives the same piece as stripping once |
| `StrUtil.StringPiece.Strip` | cuda-convnet/src/common/strutil.cpp:42-50 | strip only moves data_ forward and len_ down, stays inside the old range and the same buffer, and leaves exactly the stripped bytes |
| `StrUtil.SepIndexFirst` | cuda-convnet/src/common/strutil.cpp:59-69 | the inner scan of split stops at the first byte that is one of the delimiter bytes, and none before it is |
| `StrUtil.SplitSpec` | cuda-convnet/src/common/strutil.cpp:51-80 | split returns no pieces exactly when the input is empty |
| `StrUtil.SplitPiecesHaveNoSeparator` | cuda-convnet/src/common/strutil.cpp:51-80 | no piece returned by split contains a delimiter byte |
| `StrUtil.SplitCount` | cuda-convnet/src/common/strutil.cpp:51-80 | split returns one piece per delimiter byte, plus one when the input is non-empty and does not end with a delimiter |
| `StrUtil.SplitLeadingSeparator` | cuda-convnet/src/common/strutil.cpp:71-76 | a delimiter at the start gives an empty first piece |
| `StrUtil.SplitCanon` | cuda-convnet/src/common/strutil.cpp:60-64 | every byte of delim separates on its own: splitting on the set is splitting on one byte after every delimiter was rewritten to it |
| `StrUtil.StringPiece.FindSeparator` | cuda-convnet/src/common/strutil.cpp:55-69 | next stops at the first delimiter byte at or after c, or at the end, and found says which of the two happened |
| `StrUtil.StringPiece.PushPiece` | cuda-convnet/src/common/strutil.cpp:71-74 | push_back appends a piece that views the given bytes of the same buffer |
| `StrUtil.StringPiece.Split` | cuda-convnet/src/common/strutil.cpp:51-80 | split returns, in order, pieces pointing into sp's own buffer whose bytes are the pieces that `StrUtil.SplitSpec` gives |
| `StrUtil.StringPiece.SplitBuffer` | cuda-convnet/src/common/strutil.cpp:51-80 | the loops of split produce exactly the specified pieces of buf[base..base + n], each one a view into buf |
| `StrUtil.MemEq` | cuda-convnet/src/common/strutil.cpp:83 | memcmp returns 0 exactly when the n bytes at both offsets agree |
| `StrUtil.StrNCmpEq` | cuda-convnet/src/common/strutil.cpp:128 | against a needle with no NUL among its first n bytes, strncmp returns 0 exactly when the first n bytes agree |
| `StrUtil.StringPiece.AsString` | cuda-convnet/src/common/strutil.cpp:38-40 | AsString has len_ bytes |
| `StrUtil.StringPiece.Str` | util/string.h:30-32 | str() is AsString() |
| `StrUtil.StringPiece.Size` | util/string.h:34-36 | size() is the length of AsString() |
| `StrUtil.StringPiece.Empty` | cuda-convnet/src/common/strutil.cpp:9-11 | the default piece is empty |
| `StrUtil.StringPiece.Copy` | cuda-convnet/src/common/strutil.cpp:12-14 | the copy shares the other piece's buffer and offset and has the same bytes |
| `StrUtil.StringPiece.FromString` | cuda-convnet/src/common/strutil.cpp:15-17 | a piece made from a string views all of the string |
| `StrUtil.StringPiece.FromStringPrefix` | cuda-convnet/src/common/strutil.cpp:18-20 | a piece made from a string and a length views the first len bytes |
| `StrUtil.StringPiece.FromCString` | cuda-convnet/src/common/strutil.cpp:21-23 | a piece made from a C string views the bytes before its NUL, none of which is NUL |
| `StrUtil.StringPiece.FromPointer` | cuda-convnet/src/common/strutil.cpp:24-26 | a piece made from a pointer and a length views exactly those len bytes of the buffer |
| `StrUtil.StringPiece.Hash` | cuda-convnet/src/common/strutil.cpp:28-32 | hash() is word 0 of MurmurHash3 of the piece's bytes with seed 0 |
| `StrUtil.StringPiece.HashOf` | cuda-convnet/src/common/strutil.cpp:34-36 | the static hash(sp) is sp.hash() |
| `StrUtil.Equal` | cuda-convnet/src/common/strutil.cpp:82-84 | two pieces compare equal exactly when they hold the same bytes, wherever those bytes are stored |
| `StrUtil.EqualCString` | cuda-convnet/src/common/strutil.cpp:86-89 | a piece equals a C string exactly when it holds the bytes before that string's NUL |
| `StrUtil.EqualPiecesEqualHashes` | cuda-convnet/src/common/strutil.cpp:28-32 | pieces that compare equal have equal hashes, so the hash is consistent with operator== |
| `StrUtil.HashValue` | util/string.h:83-85 | hash_value(s) is s.hash() |
| `StrUtil.ToStringBytes` | cuda-convnet/src/common/strutil.cpp:118-120 | ToString of a string gives the same bytes back |
| `StrUtil.Search` | cuda-convnet/src/common/strutil.cpp:125-133 | the search reports the first offset in range where the needle occurs, or that there is none |
| `StrUtil.StrNStrAsWritten` | cuda-convnet/src/common/strutil.cpp:125-133 | strnstr as written returns the first match at an offset below len - strlen(needle) |
| `StrUtil.StrNStrMissesFinalMatch` | cuda-convnet/src/common/strutil.cpp:127 | "ab" contains "ab" at offset 0, but the bound as written tries no offset at all |
| `StrUtil.StrNStr` | cuda-convnet/src/common/strutil.cpp:125-133 | strnstr returns the first offset whose whole match lies within the first len bytes, or NULL when no such match exists |
| `StringJoin.Join` | util/string.h:65-76 | joining no pieces is empty, one piece is that piece, and the result starts with the first piece |
| `StringJoin.Format` | util/string.h:69 | each element is formatted by ToString, in order |
| `StringJoin.JoinAppend` | util/string.h:68-74 | joining one more piece appends the delimiter and that piece |
| `StringJoin.JoinLength` | util/string.h:65-76 | the joined length is the pieces' total length plus one delimiter per gap |
| `StringJoin.JoinEndsWithLast` | util/string.h:70-73 | no delimiter follows the last piece |
| `StringJoin.JoinDelimiterCount` | util/string.h:65-76 | n pieces that do not contain a one-byte delimiter produce exactly n - 1 copies of it |
| `StringJoin.JoinString` | util/string.h:65-76 | the loop yields the formatted elements joined by the delimiter |
| `StringJoin.VectorToString` | util/string.h:78-81 | ToString of a vector is its elements joined by commas |
| `StringJoin.SingletonHasNoComma` | util/string.h:78-81 | a one-element vector formats as its element alone |
| `StringJoin.SplitJoin` | cuda-convnet/src/common/strutil.cpp:51-80 | split recovers the pieces that were joined with a one-byte delimiter, when no piece holds that byte and the last piece is not empty |
| `StringJoin.JoinSplit` | cuda-convnet/src/common/strutil.cpp:51-80 | joining the pieces of a split with the delimiter gives back the input, minus one trailing delimiter |
| `Sampler.FloorDiv` | cuda-convnet/imagenetdata.py:120 | Python 2 integer division rounds towards minus infinity |
| `Sampler.ParseDataMode` | cuda-convnet/imagenetdata.py:58-71 | only "val" and "train" are accepted; any other mode is rejected |
| `Sampler.FreshCursor` | cuda-convnet/imagenetdata.py:73-75 | a new reader starts at class -1, with every per-class cursor at -1 |
| `Sampler.ValStep` | cuda-convnet/imagenetdata.py:139-144 | a validation draw moves to the next class modulo the class count, moves that class's cursor on by one modulo its size, and leaves the other cursors alone |
| `Sampler.ValClassesRoundRobin` | cuda-convnet/imagenetdata.py:140-141 | after k validation draws the class is the starting class plus k, modulo the number of classes |
| `Sampler.BatchCounters` | cuda-convnet/imagenetdata.py:120-130 | the epoch is 1 plus the samples drawn so far divided by total_samples; a new epoch restarts the batch number at 1, otherwise the number goes up by one |
| `Sampler.ResumeQuirk` | cuda-convnet/imagenetdata.py:119-123 | the first batch is always in epoch 1: a start epoch other than 1 is discarded, while a start batch in epoch 1 is continued |
| `Sampler.BatchNumbering` | cuda-convnet/imagenetdata.py:119-130 | the batch numbers within an epoch run 1, 2, 3, and so on |
| `Sampler.ValRun` | cuda-convnet/imagenetdata.py:119-151 | k validation calls of produceData with batch_size 1 report k draws, one per call; `Sampler.ProduceRun` proves that a reader's calls draw exactly these |
| `Sampler.TwoClassExample` | cuda-convnet/imagenetdata.py:135-151 | with classes of 3 and 2 images, the ten draws of two epochs are A0 B0 A1 B1 A2, then B0 A0 B1 A1 B0 |
| `Sampler.NumBatchesAsWritten` | cuda-convnet/imagenetdata.py:153-154 | get_num_batches as written is the floor of total_samples / batch_size |
| `Sampler.NumBatches` | cuda-convnet/imagenetdata.py:153-154 | the intended count is the fewest batches that cover every sample |
| `Sampler.NumBatchesRoundsDown` | cuda-convnet/imagenetdata.py:154 | 5 samples in batches of 2 need 3 batches, but the code reports 2 |
| `Sampler.NumBatchesAgreeOnMultiples` | cuda-convnet/imagenetdata.py:154 | the code and the intended count agree exactly when batch_size divides total_samples |
| `Sampler.ReadImage.constructor` | cuda-convnet/imagenetdata.py:41-101 | the mode selects the image lists, the sample total and shuffling; cursors start fresh, nothing has been drawn, and the start batch and epoch are stored |
| `Sampler.ReadImage.Next` | cuda-convnet/imagenetdata.py:135-151 | a validation draw takes one round-robin step; a training draw lands on some class and one of its samples and changes no other cursor. Either way one more sample is counted, and the path and label of the drawn image are returned |
| `Sampler.ReadImage.ProduceData` | cuda-convnet/imagenetdata.py:119-133 | the reported (epoch, batch) are the renumbered counters, and batch_size images and labels are drawn. In both modes each path is root_path + "/" + an image of the class given by its label; in validation mode they are the next batch_size round-robin positions |
| `Sampler.ReadImage.GetNumBatches` | cuda-convnet/imagenetdata.py:153-154 | the number of batches is the intended ceiling of total_samples / batch_size; the code's floor is `Sampler.NumBatchesAsWritten` |
| `Sampler.ProduceRun` | cuda-convnet/imagenetdata.py:119-151 | k produceData calls with batch_size 1 in validation mode draw exactly ValRun from the reader's cursor and counters, and each path is root_path + "/" + the drawn image |
| `Sampler.TwoClassReader` | cuda-convnet/imagenetdata.py:119-151 | a reader on validation lists a0 a1 a2 and b0 b1, with batch_size 1, returns r/a0 r/b0 r/a1 r/b1 r/a2 in epoch 1 and r/b0 r/a0 r/b1 r/a1 r/b0 in epoch 2, with batches numbered 1 to 5 in each |
| `ImageTransform.Pil2Array` | cuda-convnet/imagenetdata.py:25-34 | a grey image becomes rows x cols x 3, with the grey value in every channel; any other image is returned as its own array |
| `ImageTransform.CleanQueue` | cuda-convnet/imagenetdata.py:19-23 | clean_queue removes at most the head item and keeps the rest in order |
| `ImageTransform.CleanQueueLeavesRest` | cuda-convnet/imagenetdata.py:19-23 | a queue of two items still holds the second after clean_queue |
| `ImageTransform.FixedOffset` | cuda-convnet/imagenetdata.py:230-231 | the centred offset is the floor of half the slack |
| `ImageTransform.FixedCropAssertion` | cuda-convnet/imagenetdata.py:229-235 | with the centred offset, the crop assertion holds exactly when the axis is longer than the crop, and the offset is then not negative |
| `ImageTransform.RandomCropAssertion` | cuda-convnet/imagenetdata.py:224-235 | every offset random_integers can draw passes the crop assertion |
| `ImageTransform.SliceEnd` | cuda-convnet/imagenetdata.py:237 | a slice end is clamped to the axis length |
| `ImageTransform.Crop` | cuda-convnet/imagenetdata.py:237 | the slice has crop_width rows and as many columns as the second axis allows |
| `ImageTransform.CropAt` | cuda-convnet/imagenetdata.py:237 | pixel (i, j) of the slice is pixel (x + i, y + j) of the image |
| `ImageTransform.Reverse` | cuda-convnet/imagenetdata.py:243 | a reversed sequence has the same length, with element j taken from the other end |
| `ImageTransform.Mirror` | cuda-convnet/imagenetdata.py:243 | the flip keeps the shape |
| `ImageTransform.MirrorAt` | cuda-convnet/imagenetdata.py:243 | the flip reverses the second axis |
| `ImageTransform.MirrorInvolution` | cuda-convnet/imagenetdata.py:243 | flipping twice gives the image back |
| `ImageTransform.FlattenLength` | cuda-convnet/imagenetdata.py:245 | a w x h x a array flattens into w * h * a values |
| `ImageTransform.FlattenAt` | cuda-convnet/imagenetdata.py:245 | value (i, j, k) goes to row-major position i * (h * a) + j * a + k |
| `ImageTransform.TransformLength` | cuda-convnet/imagenetdata.py:237-245 | a column that comes out of the reshape has crop_width * crop_height * 3 values |
| `ImageTransform.TransformErrors` | cuda-convnet/imagenetdata.py:220-235 | a random crop fails at the draw, and a fixed crop at an assertion, exactly when an axis is not longer than the crop |
| `ImageTransform.AsWrittenNeedsSquareCrop` | cuda-convnet/imagenetdata.py:237-245 | for a three-channel image that passes the assertions, the slice as written reshapes exactly when crop_width == crop_height |
| `ImageTransform.NonSquareCropFails` | cuda-convnet/imagenetdata.py:237-245 | a 2 x 1 crop of a 4 x 4 x 3 image fails to reshape as written, and goes through with the intended slice |
| `ImageTransform.TransformSucceeds` | cuda-convnet/imagenetdata.py:220-245 | with the intended slice, every three-channel image longer than the crop on both axes gives a column of crop_width * crop_height * 3 values |
| `ImageTransform.TransformFits` | cuda-convnet/imagenetdata.py:220-245 | for a non-empty crop, an image goes through exactly when it is longer than the crop on both axes and has three channels |
| `ImageTransform.TransformPixel` | cuda-convnet/imagenetdata.py:220-245 | column position i * (ch * 3) + j * 3 + k holds image pixel (x + i, y + j) and channel k, with j mirrored when the flip dice say so |
| `ImageTransform.SquareCropAgrees` | cuda-convnet/imagenetdata.py:237 | for square crops the slice as written and the intended slice give the same result |
| `ImageTransform.ProcessImage.constructor` | cuda-convnet/imagenetdata.py:173-192 | the crop sizes and the random_transform flag are stored |
| `ImageTransform.ProcessImage.GetDataDims` | cuda-convnet/imagenetdata.py:290-294 | a dimension is returned for index 0 and for index 1 only: crop_width * crop_height * 3 rows of data and 1 label row |
| `ImageTransform.ProcessImage.ProcessBatch` | cuda-convnet/imagenetdata.py:203-252 | the batch is rejected exactly when the image and label counts differ. On success the counters pass through and column i of a new get_data_dims(0) x n matrix holds image i's crop, with the intended crop_height slice; the labels fill the single row. On failure the earlier images went through and the last one failed. A batch in which every image fits always succeeds |
| `ImageTransform.ProcessImage.FillBatch` | cuda-convnet/imagenetdata.py:209-249 | the loop fills the columns and the labels image by image, with the intended crop_height slice, and stops at the first image that fails |
| `ImageTransform.ProcessImage.Step` | cuda-convnet/imagenetdata.py:214-249 | one image is cropped with the intended crop_height slice and stored in column i with its label; otherwise the error is reported, and it can only come from an image that does not fit |
| `ImageTransform.ProcessImage.DrawFor` | cuda-convnet/imagenetdata.py:224-241 | the crop offsets are drawn from [0, size - crop - 1] on each axis |
| `ImageTransform.ProcessImage.WriteColumn` | cuda-convnet/imagenetdata.py:248 | result_data[:, i] = column writes column i and leaves every other column unchanged |
| `Synsets.Memoized.constructor` | imagenet/build-imagenet-batch.py:20-22 | the cache starts empty |
| `Synsets.Memoized.Call` | imagenet/build-imagenet-batch.py:24-32 | the value is always func(args). A hit leaves the cache and the call count alone; a miss calls func once and adds exactly that entry |
| `Synsets.CallTwice` | imagenet/build-imagenet-batch.py:27-32 | two calls with the same arguments return the same value and call func at most once |
| `Synsets.PySplit` | imagenet/build-imagenet-batch.py:51 | str.split(c) always gives at least one piece |
| `Synsets.PySplitPieces` | imagenet/build-imagenet-batch.py:51 | no piece contains the separator |
| `Synsets.PySplitCount` | imagenet/build-imagenet-batch.py:51 | n separators give n + 1 pieces |
| `Synsets.JoinPySplit` | imagenet/build-imagenet-batch.py:51 | joining the pieces with the separator gives the string back |
| `Synsets.PySplitJoin` | imagenet/build-imagenet-batch.py:51 | splitting pieces joined with a separator they lack gives the pieces back |
| `Synsets.PySplitWithout` | imagenet/build-imagenet-batch.py:51 | a string without the separator is a single piece |
| `Synsets.SplitOnce` | imagenet/build-imagenet-batch.py:52 | re.split with maxsplit=1 gives one or two pieces |
| `Synsets.SplitOnceFirstSpace` | imagenet/build-imagenet-batch.py:52 | there are two pieces exactly when the line has a space; the first has no space, and joining them with a space gives the line back |
| `Synsets.SplitOnceKey` | imagenet/build-imagenet-batch.py:52 | an id without a space followed by a space and the rest splits into that id and the rest |
| `Synsets.FirstFieldPrefix` | imagenet/build-imagenet-batch.py:54 | the first comma field is a comma-free prefix, and the whole name when there is no comma |
| `Synsets.Basename` | imagenet/build-imagenet-batch.py:46 | basename is the slash-free suffix after the last '/' |
| `Synsets.SliceIndex` | imagenet/build-imagenet-batch.py:46 | a slice bound counts from the end when it is negative and is clamped to [0, n] |
| `Synsets.SynidMiddle` | imagenet/build-imagenet-batch.py:46 | basename[1:-4] drops the first character and the last four, and gives nothing for a basename shorter than five characters |
| `Synsets.SynidOfZipName` | imagenet/build-imagenet-batch.py:86 | the synid of the zip file that get_syn_entry opens for an id is that id |
| `Synsets.SynidExample` | imagenet/build-imagenet-batch.py:46 | /hdfs/imagenet-zip/n123.zip stands for synid 123 |
| `Synsets.Synids` | imagenet/build-imagenet-batch.py:43-47 | synids holds one id per listed zip file, in listing order |
| `Synsets.DictOfFailure` | imagenet/build-imagenet-batch.py:52 | dict() fails exactly when some element is not a pair, and it reports the first such element |
| `Synsets.DictOfDistinct` | imagenet/build-imagenet-batch.py:52 | pairs with distinct keys build a dict that maps each key to its value and has no other keys |
| `Synsets.FirstFields` | imagenet/build-imagenet-batch.py:53-54 | cutting names keeps the keys and replaces each name by its first comma field |
| `Synsets.SynidToName` | imagenet/build-imagenet-batch.py:49-55 | the loop over the keys gives the parsed dictionary with every name cut at its first comma, or the error that dict() raises |
| `Synsets.ParseSynsetFile` | imagenet/build-imagenet-batch.py:51-52 | parsing a well-formed synset file maps every id to its names and has no other keys |
| `Synsets.UnterminatedLineDropped` | imagenet/build-imagenet-batch.py:52 | [:-1] drops the text after the last newline, so a file of one line without a newline has no entries |
| `Synsets.LabelNames` | imagenet/build-imagenet-batch.py:57-59 | there is one label per synid, in order: its name, or 'unknown' |
| `Synsets.RandSyn` | imagenet/build-imagenet-batch.py:77-82 | the result is the first drawn synid that has a name. There is no result exactly when there are no ids, or when no draw hits an id with a name |

## Left out

- Threads and queues: `run`, `stopThread`, the bounded queues and blocking `put`/`get` are not modelled. Batches are handed from `ProduceData` to `ProcessBatch` by value. `clean_queue` is modelled on a sequence.
- Image decoding (`Image.open`), `array2PIL` and `print_data_summary` are not modelled. `next` returns the image path instead of the decoded array.
- `ImageTransform.ProcessImage.ProcessBatch`: the float32 conversion and the subtraction of the rounded mean image (line 217) are not modelled, because they are floating point. Pixels are integers, and a column holds the cropped pixels themselves.
- `ImageTransform.ProcessImage.ProcessBatch`: the mean subtraction also raises unless the image's shape broadcasts against the mean image's shape. The model has no mean image and no such error. Its promise that a batch of fitting images is processed therefore holds of the code only for images whose shape broadcasts against the mean.
- `ImageTransform.ProcessImage.ProcessBatch`, `ImageTransform.ProcessImage.FillBatch` and `ImageTransform.ProcessImage.Step` use the corrected slice `y:y+crop_height`, not line 237's `y:y+crop_width`. So they accept non-square crops, which the code rejects at the reshape on line 245. `ImageTransform.TransformAsWritten` models the code's slice, and `ImageTransform.SquareCropAgrees` shows that the two agree on square crops.
- `ImagenetDataProvider` as a whole is left out: the constructor, `get_next_batch`, `get_num_classes` and its threads. Only `get_data_dims` is modelled, as `ImageTransform.ProcessImage.GetDataDims`, because it reads nothing but the crop sizes.
- `Sampler.ReadImage.Next`: in training mode the class and the sample are chosen nondeterministically. The contract states their ranges, not the distribution of `random.uniform`.
- `ImageTransform.ProcessImage.DrawFor`: the crop offsets and the flip dice are chosen nondeterministically. The contract states their ranges, not the distribution of `random_integers`.
- `Synsets.RandSyn`: the source draws forever until it finds a synid with a name. The model takes a finite sequence of draws and reports `DrawsExhausted` when none hits. An empty id list makes `randrange` raise; the model reports `NoIds`.
- `Synsets.Memoized.Call`: the `isinstance(args, collections.Hashable)` assertion is not modelled, because Dafny map keys are always comparable.
- Directory listing (`glob`), file reading, logging and the cluster set-up of build-imagenet-batch.py become parameters or are left out. So are `get_syn_entry` and the rest of that script, except the zip file name on line 86.
- `StringPrintf`, `VStringPrintf` and `ToString` of integers, doubles and pieces are not modelled: they format through `vsnprintf`, a foreign call. `JoinString` takes its element formatter as a parameter.
- `Murmur3.MurmurHash3`: the key length is a C `int`, so keys of 2^31 bytes or more are excluded. Blocks are read as little-endian words, as on the x86 machines the code targets.
- `StrUtil.StringPiece.FromStringPrefix` and `StrUtil.StringPiece.FromPointer` require the length to fit inside the buffer. The source does not check this, and reading past the end is undefined behaviour.
- `StrUtil.StrNStrAsWritten` and `StrUtil.StrNStr` require a NUL-terminated needle and len at most the haystack length, as strlen and strncmp do.
- `Sampler.ReadImage.constructor` requires at least one class and a non-empty image list for each class, and in training mode a training list for each class. Without them, `next` in the source raises IndexError: at the cursor lookup on line 138 or 142, or at the image lookup on line 146. The model makes this a precondition instead of raising.
- `Sampler.ReadImage.constructor` accepts batch_size 0. The source's constructor raises ZeroDivisionError there: the summary print on lines 107-109 calls get_num_batches. The print is left out, and with it this error, so the model builds a reader whose produceData returns empty batches.
- `Sampler.ReadImage.ProduceData` requires total_samples to be non-zero. With num_data_val or num_data_train equal to 0, the source raises ZeroDivisionError on line 120; the model makes this a precondition.
- `ImageTransform.ProcessImage.ProcessBatch` requires every image to be a rectangular rows x cols x channels array, which is what a numpy array always is. The model's nested sequences need this stated.
- `Sampler.ReadImage.GetNumBatches` requires a positive batch size. With batch_size 0 the source raises ZeroDivisionError.
- `Sampler.ReadImage.GetNumBatches` returns the corrected ceiling, not the floor that line 154 computes. For example, with 5 samples in batches of 2 the code returns 2 and the model returns 3. `Sampler.NumBatchesAsWritten` is the code's value, and `Sampler.NumBatchesAgreeOnMultiples` says when the two agree.
- Logging, MPI, ZMQ, sysinfo and `main.py` are not part of this model.

## Findings

| source | as written | input that shows it | evidently intended | confidence | as-written member | corrected member |
|---|---|---|---|---|---|---|
| cuda-convnet/src/common/strutil.cpp:127 | the loop tries offsets `i < len - nlen`, so a match ending exactly at len is never found | strnstr("ab", "ab", 2) returns NULL although "ab" occurs at offset 0 | `i <= len - nlen`: find every match that lies within the first len bytes | high, not executed | `StrUtil.StrNStrAsWritten` (counterexample `StrUtil.StrNStrMissesFinalMatch`) | `StrUtil.StrNStr` |
| cuda-convnet/imagenetdata.py:237 | the slice is `[x:x+crop_width, y:y+crop_width, :]`, so the second axis is cut to crop_width | crop_width 2, crop_height 1, a 4 x 4 x 3 image with a fixed crop: the slice has 12 values and the reshape asks for 6 | `y:y+crop_height`, which makes every image longer than the crop on both axes go through | high, not executed | `ImageTransform.TransformAsWritten` (lemmas `ImageTransform.NonSquareCropFails`, `ImageTransform.AsWrittenNeedsSquareCrop`) | `ImageTransform.Transform` (lemmas `ImageTransform.TransformSucceeds`, `ImageTransform.TransformFits`) |
| cuda-convnet/imagenetdata.py:154 | `ceil(self.total_samples / self.batch_size)` takes the ceiling of a Python 2 integer quotient, which is already rounded down | total_samples 5, batch_size 2: returns 2, while 3 batches are needed | the ceiling of the exact quotient, as the commented-out line 155 computes with `1.0 *` | high, not executed | `Sampler.NumBatchesAsWritten` (lemma `Sampler.NumBatchesRoundsDown`) | `Sampler.NumBatches` (used by `Sampler.ReadImage.GetNumBatches`) |
