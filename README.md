# imgpreviewer: a verified model of the image cache and its request logic

imgpreviewer is an HTTP service. It fetches a remote JPEG, crops or resizes it, and
keeps the results in a bounded least-recently-used cache on disk. This project
models the parts of the service that decide things, and proves properties of that
model:

- **The recency queue** (`CacheQueue.Queue`). It is a doubly-linked list of
  `file{url, size, name}` records, most recently used first, with a running total of
  the sizes. The nodes live in an arena (`items`), so a Go `*item` becomes
  `Ptr = Nil | Ref(index)`. Ghost fields `order` and `contents` list the linked
  items and their files from front to back.
- **The cache** (`Cache.Cache`). It holds an index from keys to queue items, the
  queue, a capacity and a blob store (`Storage.Store`). The store is an in-memory
  map from names to bytes, plus a set of names whose operations fail.
- **The cache's behaviour as functions** (`CacheModel`). `GetSpec` and `PutSpec`
  give the outcome and the new state of `Get` and `Put`. `Evict` is the eviction
  loop. The state is the files, most recently used first, and the blobs. The class
  methods are proved to compute exactly these functions. Then the cache's
  properties are proved about the functions, including:
  - the capacity bound;
  - LRU eviction order;
  - no rollback after a failure;
  - `Put` followed by `Get`.

  `CacheIndex` holds the invariant that ties together the index, the queue and the
  store.
- **Configuration** (`Config`):
  - `getCacheSize`, on the value of `IMPR_CACHE_SIZE`. This includes Go's 64-bit
    wrap-around of `size * 1024 * 1024`.
  - `getCachePath`, on the value of `IMPR_CACHE_FOLDER`.
  - `New`.
- **Request parameters.** `Server.GetParameters` and `App.GetParameters`, over an
  exact model of `strconv.Atoi` (`Strconv`).
- **The application layer** (`App`):
  - the cache key;
  - the cache-then-download lookup `getImage`;
  - the decision in `Fill` to write the resized image to the cache.
- **The centre crop** (`Processor`). Its size check and its rectangle arithmetic,
  with Go's truncating division.
- **The repository's test scenarios** (`QueueTests`, `CacheTests`), replayed on the
  model and proved.

The following are parameters of the model:

- the cache's collaborators (`get`, `put`, `download`);
- the image codecs (`Codec`);
- the blob naming function (`nameOf`, SHA-256 in the source);
- `filepath.Abs`;
- the environment variables' values.

The `Cache` results follow the code as written. Removing the last queue node
dereferences nil in the source, and the model makes this an explicit
`NilDereference` outcome of `Put`.

## Model

| member | source | states |
|---|---|---|
| CacheQueue.Queue.constructor | internal/cache/queue.go:15-17 | A new queue is valid and empty, with size 0. |
| CacheQueue.Queue.GetFront | internal/cache/queue.go:20-22 | Returns nil exactly when the queue is empty; otherwise the item holding the most recently used file. |
| CacheQueue.Queue.GetBack | internal/cache/queue.go:25-27 | Returns nil exactly when the queue is empty; otherwise the item holding the least recently used file. |
| CacheQueue.Queue.PushFront | internal/cache/queue.go:30-49 | A fresh item holding `f` becomes the front, and `size` grows by `f.size`. If `size` was 0, the linked list becomes just `[f]` with `back` at the new item; otherwise the contents become `[f] + old` and `back` is kept. `size == Sum(contents)` is preserved. |
| CacheQueue.Queue.Remove | internal/cache/queue.go:52-80 | With two or more items, the contents lose exactly the item at position `k` (front, back or inside), the rest keep their order, and `size` drops by that file's size. Removing the only item is the nil-dereference outcome, with `front` and `back` cleared. |
| CacheQueue.Queue.MoveToFront | internal/cache/queue.go:83-91 | The contents become `[contents[k]] + (the others in order)` and `size` is unchanged. The front is a newly allocated item, so the old pointer is stale. |
| Storage.Store.constructor | internal/storage/storage.go:21-30 | A new store holds no blobs. |
| Storage.Store.Read | internal/storage/storage.go:50-58 | Returns the blob when it exists and its name is not failing; otherwise the wrapped read error. |
| Storage.Store.Write | internal/storage/storage.go:38-47 | Sets the blob unless its name is failing, in which case the wrapped write error is returned and nothing changes. |
| Storage.Store.Delete | internal/storage/storage.go:61-69 | Removes an existing, non-failing blob; otherwise returns the remove error and changes nothing. |
| Cache.Cache.constructor | internal/cache/cache.go:37-47 | A new cache is valid and empty, with the given capacity and store. |
| Cache.Cache.Get | internal/cache/cache.go:50-72 | The result and the new state equal `GetSpec` of the old state. On a hit, `files[key]` is re-bound to the new front item. On a miss or a read failure, the index and the queue are unchanged. |
| Cache.Cache.Promote | internal/cache/cache.go:68-69 | The file at position `k` moves to the front, the blobs are unchanged, and its key points at the new front item. |
| Cache.Cache.EvictBack | internal/cache/cache.go:96-102 | One round of eviction. A failed `Delete` returns its error with nothing changed. Otherwise the back file, its blob and its key are dropped. Dropping the last file crashes, leaving an empty index and store and nil `front` and `back`, while `size` keeps its old value, the dropped file's nonzero size. |
| Cache.Cache.MakeRoom | internal/cache/cache.go:94-108 | The eviction loop computes `Evicted`: the same stop reason, kept files and blobs. When it ends without error or crash, the new file fits. On the crash the index and store are empty and `front` and `back` nil, but `size` is stale: the size of the old front file, the last one evicted, which is nonzero. |
| Cache.Cache.Insert | internal/cache/cache.go:111-118 | Writes the blob, then pushes the file in front and indexes it. A failed `Write` changes nothing. |
| Cache.Cache.Put | internal/cache/cache.go:75-121 | The outcome equals `PutSpec` of the old state, and on every non-crash outcome so does the new state. Oversize data is refused, with the index, queue and store untouched. After success, `files[key]` is the front item. After the crash, the index and store are empty and `front` and `back` nil, while the queue's `size` is stale: the nonzero size of the old front file. |
| Cache.Cache.PutFitting | internal/cache/cache.go:87-120 | The same as `Put`, for data no larger than the capacity: the outcome and the non-crash state equal `PutSpec`, a success leaves `files[key]` at the front, and the crash leaves an empty index and store with a stale nonzero `size`. |
| CacheModel.GetSpec | internal/cache/cache.go:50-72 | `Get` on the abstract state: the result and the new state. Its properties are `GetMiss`, `GetReadFails`, `GetHit`, `GetPromotes`, `GetWellFormed` and `PutThenGet`; `Cache.Cache.Get` is proved to compute it. |
| CacheModel.Evicted | internal/cache/cache.go:94-108 | The eviction step of `Put`, whether or not the loop runs. Its properties are `EvictedFacts`, `EvictedLongest`, `EvictNeverFails` and `EvictedWellFormed`; `Cache.Cache.MakeRoom` is proved to compute it. |
| CacheModel.PutSpec | internal/cache/cache.go:75-121 | `Put` on the abstract state: the outcome and the new state. Its properties are `PutTooLarge`, `PutSuccess`, `PutFailure`, `PutFits`, `PutCrashes`, `PutWellFormed` and `PutThenGet`; `Cache.Cache.Put` is proved to compute it. |
| CacheModel.Evict | internal/cache/cache.go:95-107 | The loop keeps a prefix of the files, most recently used first: it only ever removes from the back. |
| CacheModel.EvictBlobs | internal/cache/cache.go:96-102 | Exactly the evicted files' blobs are deleted, and none of their names was failing. |
| CacheModel.EvictStops | internal/cache/cache.go:94-107 | Every longer prefix would not have fitted. It stops on `Fits` with a nonempty fitting prefix, on a failed `Delete` at the back file the loop was about to drop, or on `LastRemoved` with nothing left. |
| CacheModel.EvictedFacts | internal/cache/cache.go:94-108 | The eviction facts, whether or not the loop runs. |
| CacheModel.EvictedLongest | internal/cache/cache.go:104-106 | When the new file fits, the kept files are exactly the longest most-recently-used prefix beside which it fits (both directions). |
| CacheModel.EvictNeverFails | internal/cache/cache.go:96-99 | A store that fails on none of the cache's names never stops the eviction with a `Delete` error. |
| CacheModel.EvictedWellFormed | internal/cache/cache.go:94-108 | The state left by the eviction is well formed: one file per key, sizes positive, total within capacity, blobs exactly the files' names. |
| CacheModel.PutTooLarge | internal/cache/cache.go:83-85 | `Put` returns `ErrFileToLarge` exactly when the data is larger than the capacity; then the state is unchanged. |
| CacheModel.PutSuccess | internal/cache/cache.go:94-118 | After success, the front is `{key, len(data), nameOf(key)}` and the rest are the old files minus only those evicted from the back. The store maps the name to the data and the evicted blobs are gone. Keeping any more of the old files would not have fitted, and the total is at most the capacity. |
| CacheModel.PutFailure | internal/cache/cache.go:94-114 | After an error, nothing is rolled back: earlier evictions stay, nothing new is added, and the error is either the write error of the new name (exactly when it fits and that name fails) or the delete error of the back file, which stays queued. |
| CacheModel.PutFits | internal/cache/cache.go:94-118 | Data that fits beside the files is pushed in front without evicting anything. |
| CacheModel.PutCrashes | internal/cache/cache.go:94-102 | Over a store that fails on none of the cache's names, `Put` crashes exactly when the data fits the capacity but not beside the most recently used file. |
| CacheModel.PushWellFormed | internal/cache/cache.go:117-118 | Pushing a new, nonempty, correctly named file that fits keeps the state well formed. |
| CacheModel.PutWellFormed | internal/cache/cache.go:75-121 | `Put` of an unheld key with nonempty data keeps the abstract state well formed on every non-crash outcome. After the crash the abstract state is empty, holding no files and no blobs; it is well formed only because it records no running total. |
| CacheModel.Find | internal/cache/cache.go:55 | The position of the key's file, when and only when the key is held. |
| CacheModel.GetMiss | internal/cache/cache.go:55-59 | A key not held returns the miss `(nil, nil)` and changes nothing. |
| CacheModel.GetReadFails | internal/cache/cache.go:62-65 | A held key whose blob cannot be read returns the read error and changes nothing. |
| CacheModel.GetHit | internal/cache/cache.go:62-71 | A hit returns the blob and moves the file to the front; the blobs are unchanged. |
| CacheModel.GetPromotes | internal/cache/cache.go:68-69 | After a hit, the file is first, the others keep their relative order, and the total size and blobs are unchanged. |
| CacheModel.GetWellFormed | internal/cache/cache.go:50-72 | `Get` keeps the state well formed. |
| CacheModel.MoveWellFormed | internal/cache/queue.go:83-91 | Moving a file to the front keeps the state well formed. |
| CacheModel.PutThenGet | internal/cache/cache_test.go:86-100 | After a successful `Put(k, d)`, `Get(k)` returns `d` and leaves the state as it is. |
| CacheIndex.ConsistentMove | internal/cache/cache.go:68-69 | Re-binding the key of the moved file to the new front item keeps the index invariant. |
| CacheIndex.ConsistentEvict | internal/cache/cache.go:101-102 | Dropping the back file's key and item, and its blob, keeps the index invariant. |
| CacheIndex.ConsistentPush | internal/cache/cache.go:117-118 | Indexing a pushed file under its key keeps the index invariant. |
| QueueTests.EmptyQueue | internal/cache/queue_test.go:53-58 | A new queue has no front and no back. |
| QueueTests.PushItemToEmptyQueue | internal/cache/queue_test.go:60-67 | After one push, the size is that file's size, and the front and back are the same item, holding the file. |
| QueueTests.PushAll | internal/cache/queue_test.go:72-75 | Pushing files in order leaves their reverse, with the sum as the size. |
| QueueTests.PushMultipleItems | internal/cache/queue_test.go:69-80 | After pushing the eight test files, the size is 464367, `testFiles[7]` is the front and `testFiles[0]` the back. |
| QueueTests.RotateBack | internal/cache/queue_test.go:89-95 | Moving the back to the front `n` times rotates the contents by `n`, with the size unchanged. |
| QueueTests.RotatedTestFiles | internal/cache/queue_test.go:89-95 | After `i + 1` turns, `testFiles[i]` is at the front and `testFiles[i + 1]` at the back. |
| QueueTests.RemoveItems | internal/cache/queue_test.go:98-116 | Removing the front and then the back leaves `testFiles[1..6]`, with both sizes subtracted. |
| QueueTests.TestFilesSum | internal/cache/queue_test.go:77 | The eight test sizes sum to 464367. |
| CacheTests.ReplayFits | internal/cache/cache_test.go:119-125 | The first seven test files go into a 300000-byte cache one by one, with no eviction and every `Put` returning nil. |
| CacheTests.OversizeEviction | internal/cache/cache.go:94-107 | For the eighth file, all but the newest resident file are evicted, and then it fits. |
| CacheTests.OversizePut | internal/cache/cache.go:75-121 | That `Put` returns nil and leaves the new file and the newest old one, 268714 bytes. |
| CacheTests.CacheOversize | internal/cache/cache_test.go:114-132 | All eight `Put`s of the test into a 300000-byte cache return nil, and only the 226943- and 41771-byte files remain, within the capacity. |
| CacheTests.CrashOnLastEviction | internal/cache/queue.go:59-79 | A 1000-byte cache with one 600-byte file, asked to `Put` 600 more bytes, evicts that file and dereferences nil. |
| Config.GetCacheSize | internal/config/config.go:55-83 | `getCacheSize` on the variable's value. Its properties are `CacheSizeOutcomes`, `CacheSizeScales`, `CacheSizeNotPositive`, `CacheSizeWraps` and `CacheSizeExamples`. |
| Config.GetCachePath | internal/config/config.go:86-106 | `getCachePath` on the variable's value and `filepath.Abs`. Its properties are `CachePathOutcomes`. |
| Config.New | internal/config/config.go:29-44 | The configuration, or the first error. Its properties are `NewOutcomes`. |
| Config.Wrap64 | internal/config/config.go:82 | The result is an `int64`, and equals the input whenever the input fits. |
| Config.CacheSizeOutcomes | internal/config/config.go:55-83 | Success exactly when the value is empty or a positive `int64`. An empty value gives the default 10485760. An `Atoi` error is wrapped as "failed to set cache size". A value at most 0 gives `ErrCacheSizeZeroOrLess`. |
| Config.CacheSizeScales | internal/config/config.go:82 | A positive `n` that fits gives exactly `n * 1024 * 1024` bytes. |
| Config.CacheSizeNotPositive | internal/config/config.go:73-75 | Every `int64` at most 0 is refused with `ErrCacheSizeZeroOrLess`. |
| Config.CacheSizeWraps | internal/config/config.go:82 | 2^44 megabytes passes the check and wraps to a cache of 0 bytes. |
| Config.CacheSizeExamples | internal/config/config_test.go:30-56 | "100" gives 104857600 bytes, and "-100" is refused. |
| Config.CachePathOutcomes | internal/config/config.go:86-106 | An absolute path is returned unchanged without calling `Abs`. An empty value selects "cache" before it is made absolute. Failure exactly when the chosen path is relative and `Abs` fails, wrapped as "invalid path". |
| Config.NewOutcomes | internal/config/config.go:29-44 | `New` succeeds exactly when both parts do, with their values. A size error takes precedence over a path error. |
| Strconv.Atoi | internal/server/server.go:141-150 | Go's `strconv.Atoi`, with its syntax and range errors. Its properties are `AtoiOk`, `AtoiErrors`, `AtoiShort` and `AtoiItoa`. |
| Strconv.Itoa | internal/app/app.go:129 | The `%d` form of an integer. Its properties are `AtoiItoa`, `ItoaInjective` and `ItoaDash`. |
| Strconv.NatDigits | internal/app/app.go:129 | The `%d` digits of a natural number: nonempty, all digits, no leading zero. |
| Strconv.AtoiOk | internal/server/server.go:141-150 | `Atoi` succeeds exactly on an optionally signed, nonempty digit string whose value is an `int64`, and returns that value. |
| Strconv.AtoiErrors | internal/config/config.go:67-70 | Every `Atoi` error is a syntax or range error naming `Atoi` and the whole input; an out-of-range decimal gives the range error. |
| Strconv.AtoiShort | internal/app/app.go:140-149 | A non-decimal input of fewer than 19 characters is a syntax error. |
| Strconv.AtoiItoa | internal/app/app.go:129 | `Atoi` reads back the decimal form of every `int64`. |
| Strconv.ItoaInjective | internal/app/app.go:129 | Distinct numbers have distinct decimal forms. |
| Strconv.ItoaDash | internal/app/app.go:129 | A number's decimal form followed by "-" can be split off uniquely. |
| Server.GetParameters | internal/server/server.go:134-156 | The server's `getParameters`. Its properties are `ParametersMissing`, `ParametersParsed` and `ParametersRoundTrip`. |
| Server.ParametersMissing | internal/server/server.go:134-156 | The server's `ErrNotEnoughParameters` exactly when one of the three is empty, ahead of any parse error; every error comes with zero values. |
| Server.ParametersParsed | internal/server/server.go:140-155 | A bad width is reported before a bad height. Success exactly when both parse, giving their values and `"http://" + imageUrl`. |
| Server.ParametersRoundTrip | internal/server/server.go:134-156 | The decimal forms of two `int64`s and a nonempty address give back the numbers and the address with its scheme. |
| App.GetParameters | internal/app/app.go:133-155 | The application's `getParameters`. Its property is `ParametersAgree`. |
| App.GetCacheKey | internal/app/app.go:128-130 | The cache key `"<w>-<h>-<url>-<action>"`. Its property is `CacheKeyInjective`. |
| App.GetImage | internal/app/app.go:102-125 | The cache-then-download lookup. Its properties are `GetImageFailed`, `GetImageHit` and `GetImageMiss`. |
| App.Fill | internal/app/app.go:51-99 | The resize request. Its properties are `FillPut`, `FillMissStores` and `FillHit`. |
| App.ParametersAgree | internal/app/app.go:133-155 | The two `getParameters` fail on the same inputs. A missing parameter gives each package's own `ErrNotEnoughParameters`, and any other error is the same `Atoi` error. On success, the application gets the server's three values. |
| App.CacheKeyInjective | internal/app/app.go:128-130 | For a fixed action, equal keys mean equal width, height and address. |
| App.GetImageFailed | internal/app/app.go:104-107 | A cache error is the result, whatever the downloader would do. |
| App.GetImageHit | internal/app/app.go:110-113 | Cached data is returned, marked as cached, whatever the downloader would do. |
| App.GetImageMiss | internal/app/app.go:115-124 | A miss gives the downloaded bytes, not marked as cached, or the downloader's error. |
| App.FillPut | internal/app/app.go:88-96 | `Fill` writes only under `getCacheKey(wi, hi, url, "resize")`, only after a cache miss, and only the bytes it returns. A failed write fails `Fill` with that error. |
| App.FillMissStores | internal/app/app.go:51-99 | A downloaded image that decodes, fits and encodes is always written under the request's key. |
| App.FillHit | internal/app/app.go:88-98 | On a hit, nothing is written, and neither the downloader nor `Put` affects the result. |
| Images.Rectangle.Add | internal/processor/processor.go:37 | Moving a rectangle keeps its width and height and moves its corner. |
| Images.Rect | internal/processor/processor.go:35 | `image.Rect` swaps corners as needed, so the width and height are never negative. |
| Processor.CropRect | internal/processor/processor.go:29-37 | The centred crop rectangle. Its properties are `CropInside` and `CropCentred`. |
| Processor.Crop | internal/processor/processor.go:21-50 | The crop request. Its property is `CropOutcomes`. |
| Processor.CropOutcomes | internal/processor/processor.go:21-50 | A decode error is returned before any size check. A target wider or taller than the image gives the processor's `ErrInvalidSize`. Otherwise the result is the encoding of the sub-image at the crop rectangle. |
| Processor.CropInside | internal/processor/processor.go:29-37 | For `0 <= w <= Dx` and `0 <= h <= Dy`, the crop rectangle is exactly `w` by `h` and lies inside the image. |
| Processor.CropCentred | internal/processor/processor.go:33-37 | The margins on the two sides of each axis differ by at most one pixel. |

## Left out

- The mutex in `Cache` (`sync.Mutex`): `Get` and `Put` are modelled as atomic, sequential methods.
- SHA-256 hex naming of blobs: `nameOf` is a parameter, assumed injective, as a hash is taken to be.
- The file system behind `storage.go`: it becomes a map of blobs and a set of failing names. Also left out: the random directory names, `Clean`, `Path`, and the wording of `os` errors.
- The downloader, the HTTP client, the image codecs and resampling: they are function parameters, being network and foreign library code.
- The HTTP routing, the handlers, `Start` and `Stop`, `main.go`, logging, and `list.go`, which is a dead declaration.
- Cache.Cache.Put: requires `key !in files`, so a re-`Put` of an indexed key (which the source allows, leaving two nodes under one name) is not modelled.
- Cache.Cache.Put: requires nonempty data. A zero-length blob would make the queue's `size == 0` emptiness test unlink the resident files. `PushFront` models that corruption as written.
- Cache.Cache.Put: the nil-dereference crash is stated as the state at the panic: an empty index and store, nil `front` and `back`, and a stale nonzero `size`. The program does not stop there. The HTTP server recovers the handler's panic and the deferred `Unlock` runs, so the same cache goes on serving. A later `Put` larger than the capacity still returns `ErrFileToLarge`. Every other later `Put` crashes again, unless its `Write` fails first. When the data fits beside the stale size, it crashes in `pushFront` at the nil `front`, after `Write` has stored an orphaned blob. Otherwise it crashes in the eviction loop at the nil back item. The model does not carry calls on past the panic.
- CacheQueue.Queue.MoveToFront: requires `size > 0`. Go's `moveToFront` also runs on a queue whose files all have size 0. Every call site meets the requirement, because `Put` is modelled only for nonempty data.
- CacheModel.Evict: the sizes, the running total and `c.queue.size + size > c.size` (cache.go, lines 94 and 104) are unbounded integers rather than `int64`s. The sum could only wrap with a capacity above half the largest `int64`.
- CacheModel.PutWellFormed: its crash case is about the abstract state, which has no running total. The crashed cache is not a healthy empty cache: its queue keeps a stale nonzero `size`, as `Cache.Cache.Put` states.
- `Config.GetCacheSize` models `int64(size * 1024 * 1024)` wrapping modulo 2^64 (`Wrap64`), rather than bounding the input.
- `Config.GetCachePath`: `filepath.Abs` is a parameter, because it depends on the working directory.
- The configuration tests read `IMPR_CACHE_PATH`, but `config.go` reads `IMPR_CACHE_FOLDER`; the model follows `config.go`. The tests' timeout and port fields do not exist in `config.go` and are not modelled.
- The cache tests call `New(path, size, logger)` and `Clean`, which `cache.go` does not have. The scenarios are replayed on `PutSpec` over a store that never fails, with file contents of the test sizes.
- The "put files to cache" test (500000 bytes, no eviction) is not replayed separately. Its eviction-free case is `PutFits`.
- Processor.CropInside: stated only for `0 <= w <= Dx` and `0 <= h <= Dy`. `Atoi` accepts negative sizes, which `image.Rect` then canonicalises.
- Processor.CropCentred: stated only for `0 <= w <= Dx` and `0 <= h <= Dy`, for the same reason.
- `Processor.Crop` takes the decoded image's bounds as given. Their origin is at (0, 0) for a decoded JPEG, which the centring lemmas use through `Dx` and `Dy`.
- `Fill` takes the request's strings, as `app.go` does. The server's `app` interface passes integers, and `main.go`'s wiring between the two is not modelled.
- `Processor.Resize` is not modelled: it is resampling only, with no check of its own.
