# client_paintings: a Dafny model of the painting manager

This project models `ClientPaintingManager` from the client_paintings mod.
A resource pack describes extra paintings in small JSON descriptors. The manager loads them into a catalog
keyed by resource identifier and publishes that catalog after the reload. For a painting entity of a given
pixel size, it picks either one of the loaded paintings or "none", which tells the caller to use a built-in
painting. The pick is deterministic and keyed by the entity UUID's hash.

Modules:

- `Wrappers`: `Option`, `Result` and `Outcome`. `None` stands for Java's `null`; `Failure`/`Fail` stand for a thrown exception.
- `JavaInt`: Java's 32-bit `int` (`int32`), with wrap-around (`Wrap`), `Math.abs` (`Abs`) and the truncating `%` (`Rem`).
- `JsonValue`: an already-decoded JSON tree (`Json`).
- `DefaultPool`: the built-in pool. It maps each size (`Vec2i`) to the list of registered `PaintingVariant`s of that size, in registry order. It is built by the constructor's grouping loop (`GroupBySize`).
- `ClientPaintings`: the core, made of:
  - the painting record `ClientPainting`. It is a class, because Java compares paintings by identity and `getId` searches the catalog for the object itself;
  - the mutable map `PaintingTable`. Its enumeration order is explicit, because `HashMap` does not specify one;
  - the selector `Select`;
  - the field extraction `DecodePainting`, and `EncodePainting`, a writer whose output decodes back to the same fields;
  - the stitch input `StitchInput`;
  - the manager class with `LoadJson`, `Publish` (`clear()` then `putAll`) and `Reload`.

The selector is a Dafny function. Its result therefore depends only on the catalog, the enumeration order,
the default pool, the hash and the requested size. Asking twice gives the same answer.

Two behaviours of the code are worth stating up front:

- A descriptor that fails to decode is not skipped. `loadJson` catches only `IOException`. Any other failure escapes the `runAsync` job, so `allOf(...).join()` fails and the publish step never runs. These failures are a syntax error, a missing member, a member Gson cannot convert, or a short `size` array (the model also rejects Gson's lenient conversions, see "Left out"). `Reload` therefore fails as a whole on such a descriptor and leaves the live catalog as it was. Only an unreadable resource is skipped.
- A size with no built-in variants is not an empty fallback region. `defaultPaintings.get(...)` returns null there and the selector throws. The model returns `NoDefaultsForSize`.

## Model

| member | source | states |
|---|---|---|
| `JavaInt.Wrap` | src/main/java/nl/enjarai/client_paintings/ClientPaintingManager.java:186-192 | the 32-bit result is congruent to the exact value modulo 2^32, and equals it when it fits |
| `JavaInt.Abs` | src/main/java/nl/enjarai/client_paintings/ClientPaintingManager.java:62 | `Math.abs` is the absolute value for every int except INT_MIN, which it returns unchanged (still negative) |
| `JavaInt.Rem` | src/main/java/nl/enjarai/client_paintings/ClientPaintingManager.java:62 | Java's `%` by a positive divisor: the remainder has the dividend's sign, is smaller than the divisor in magnitude, and completes the truncating quotient |
| `DefaultPool.OfSize` | src/main/java/nl/enjarai/client_paintings/ClientPaintingManager.java:41-47 | a variant is in the list for a size exactly when it is in the registry and has that size |
| `DefaultPool.OfSizeAppend` | src/main/java/nl/enjarai/client_paintings/ClientPaintingManager.java:41-47 | the list of a size over a concatenation is the two parts' lists joined: every entry of that size is kept, as often as it occurs, in registry order |
| `DefaultPool.Grouped` | src/main/java/nl/enjarai/client_paintings/ClientPaintingManager.java:41-47 | the `forEach` as a fold: every list is non-empty, and every variant is in the list of its own size |
| `DefaultPool.Sizes` | src/main/java/nl/enjarai/client_paintings/ClientPaintingManager.java:41-47 | the distinct sizes of the registry, each once, and every variant's size among them |
| `DefaultPool.GroupBySize` | src/main/java/nl/enjarai/client_paintings/ClientPaintingManager.java:39-47 | the grouping loop builds the pool: each size's list is the registry's variants of that size in registry order; every list is non-empty; every variant is in its own size's list; the list lengths add up to the registry size |
| `DefaultPool.GroupedContents` | src/main/java/nl/enjarai/client_paintings/ClientPaintingManager.java:41-47 | a size has a list iff some variant has that size, and the list is that size's variants in registry order |
| `DefaultPool.SizesAreKeys` | src/main/java/nl/enjarai/client_paintings/ClientPaintingManager.java:41-47 | the sizes occurring in the registry are exactly the keys of the pool |
| `DefaultPool.TotalLengthFrame` | src/main/java/nl/enjarai/client_paintings/ClientPaintingManager.java:46 | changing the list of a size outside the summed sizes leaves the total unchanged |
| `DefaultPool.TotalLengthBump` | src/main/java/nl/enjarai/client_paintings/ClientPaintingManager.java:46 | appending one variant to one list adds exactly one to the total |
| `DefaultPool.GroupedTotal` | src/main/java/nl/enjarai/client_paintings/ClientPaintingManager.java:41-47 | every registry variant lands in exactly one list: the total length of all lists equals the registry size |
| `ClientPaintings.ClientPainting.constructor` | src/main/java/nl/enjarai/client_paintings/ClientPaintingManager.java:147-152 | a new painting holds the given texture, optional back texture and unit sizes |
| `ClientPaintings.ClientPainting.GetBackTexture` | src/main/java/nl/enjarai/client_paintings/ClientPaintingManager.java:166-168 | the stored back texture when one was given, otherwise the constant `painting/back`; never absent |
| `ClientPaintings.ClientPainting.PixelsX` | src/main/java/nl/enjarai/client_paintings/ClientPaintingManager.java:186-188 | the width in pixels is the unit width times 16 (modulo 2^32, exactly when it fits) |
| `ClientPaintings.ClientPainting.PixelsY` | src/main/java/nl/enjarai/client_paintings/ClientPaintingManager.java:190-192 | the height in pixels is the unit height times 16 (modulo 2^32, exactly when it fits) |
| `ClientPaintings.ClientPainting.GetId` | src/main/java/nl/enjarai/client_paintings/ClientPaintingManager.java:154-160 | a found id is a key of the live catalog holding this very painting; "not found" (the IllegalStateException) only when the painting is not in the catalog |
| `ClientPaintings.FindKey` | src/main/java/nl/enjarai/client_paintings/ClientPaintingManager.java:155-159 | the search over the entries returns a key whose value is the painting, and fails only when no listed key holds it |
| `ClientPaintings.FindKeyFirst` | src/main/java/nl/enjarai/client_paintings/ClientPaintingManager.java:155-159 | the key found comes no later in the enumeration than any key holding the painting: the first holder, as `findFirst` returns |
| `ClientPaintings.FindOwnKey` | src/main/java/nl/enjarai/client_paintings/ClientPaintingManager.java:154-160 | in a catalog where no painting is stored twice, a painting's id is the key it is stored under |
| `ClientPaintings.ValuesInOrder` | src/main/java/nl/enjarai/client_paintings/ClientPaintingManager.java:54 | `values().stream()` lists the value of each key of the enumeration, in that order, and lists only values of the map |
| `ClientPaintings.ValuesInOrderMembers` | src/main/java/nl/enjarai/client_paintings/ClientPaintingManager.java:54 | a painting is listed iff it is a value of the catalog |
| `ClientPaintings.PaintingTable.constructor` | src/main/java/nl/enjarai/client_paintings/ClientPaintingManager.java:36 | a new map is empty |
| `ClientPaintings.PaintingTable.Put` | src/main/java/nl/enjarai/client_paintings/ClientPaintingManager.java:92 | `put` maps the key to the painting and leaves all other entries alone; a new key joins the enumeration once |
| `ClientPaintings.PaintingTable.Clear` | src/main/java/nl/enjarai/client_paintings/ClientPaintingManager.java:133 | `clear` empties the map |
| `ClientPaintings.PaintingTable.PutAll` | src/main/java/nl/enjarai/client_paintings/ClientPaintingManager.java:134 | `putAll` leaves the old entries overridden by the other map's; into an empty map it copies the other map and its enumeration |
| `ClientPaintings.Matching` | src/main/java/nl/enjarai/client_paintings/ClientPaintingManager.java:54-56 | the filter keeps only paintings of the requested pixel size and never grows the list |
| `ClientPaintings.MatchingAppend` | src/main/java/nl/enjarai/client_paintings/ClientPaintingManager.java:54-56 | filtering a concatenation filters each part: every painting of the size is kept, as often as it is listed, in enumeration order |
| `ClientPaintings.MatchingMembers` | src/main/java/nl/enjarai/client_paintings/ClientPaintingManager.java:54-56 | a painting is kept iff it is listed and has the requested pixel size |
| `ClientPaintings.MatchingInCatalog` | src/main/java/nl/enjarai/client_paintings/ClientPaintingManager.java:54-64 | every matching painting is a painting of the catalog with the requested pixel size |
| `ClientPaintings.MatchingNonEmpty` | src/main/java/nl/enjarai/client_paintings/ClientPaintingManager.java:52-60 | a matching painting implies a non-empty catalog |
| `ClientPaintings.UuidIndex` | src/main/java/nl/enjarai/client_paintings/ClientPaintingManager.java:62 | `Math.abs(hash) % n` is `abs(hash) mod n` for every hash except INT_MIN, where it is `-(2^31 mod n)` |
| `ClientPaintings.ClientPaintingManager.GetPaintingFromUUID` | src/main/java/nl/enjarai/client_paintings/ClientPaintingManager.java:50-68 | over the live catalog and the default pool: null for an empty catalog; a `NoDefaultsForSize` failure whenever something matches and the pool has no entry for the size; a returned painting is in the catalog with the requested pixel size; it throws only for a size without defaults, or when the hash is INT_MIN |
| `ClientPaintings.Select` | src/main/java/nl/enjarai/client_paintings/ClientPaintingManager.java:50-68 | null for an empty catalog or when nothing matches; when something matches and the size has no defaults entry, it fails with `NoDefaultsForSize` (the NullPointerException); a returned painting is in the catalog and has the requested pixel size; it throws only when the size has no defaults, or (negative index) when the hash is INT_MIN |
| `ClientPaintings.SelectByIndex` | src/main/java/nl/enjarai/client_paintings/ClientPaintingManager.java:62-67 | for a hash other than INT_MIN and a size with defaults: the result is `matching[index]` when `index = abs(hash) mod (matching + defaults)` is below the number of matches, and null otherwise |
| `ClientPaintings.SelectMinHash` | src/main/java/nl/enjarai/client_paintings/ClientPaintingManager.java:62-64 | with hash INT_MIN the result is `matching[0]` when `n` divides 2^31, and otherwise an index-out-of-bounds failure at `-(2^31 mod n)` |
| `ClientPaintings.SelectMinHashThrows` | src/main/java/nl/enjarai/client_paintings/ClientPaintingManager.java:62-64 | one matching painting, two defaults and hash INT_MIN make the selector fail on index -2 |
| `ClientPaintings.SelectIntended` | src/main/java/nl/enjarai/client_paintings/ClientPaintingManager.java:50-68 | the corrected selector fails with `NoDefaultsForSize` whenever something matches and the size has no defaults entry, fails with no other error, and a returned painting is in the catalog with the requested pixel size |
| `ClientPaintings.SelectIntendedAgrees` | src/main/java/nl/enjarai/client_paintings/ClientPaintingManager.java:62-67 | the corrected selector always succeeds when the size has defaults, and agrees with the code for every hash but INT_MIN |
| `ClientPaintings.SelectStable` | src/main/java/nl/enjarai/client_paintings/ClientPaintingManager.java:54-67 | two catalogs with the same matching paintings in the same order give the same result for every hash |
| `ClientPaintings.DecodeEncode` | src/main/java/nl/enjarai/client_paintings/ClientPaintingManager.java:86-91 | reading the fields back from a written descriptor gives the same texture, back texture and sizes |
| `ClientPaintings.DecodeReads` | src/main/java/nl/enjarai/client_paintings/ClientPaintingManager.java:86-91 | the field extraction `DecodePainting`: a successful read took the texture string, the back string exactly when `back` is present, and `size[0]` and `size[1]` wrapped to ints |
| `ClientPaintings.DecodeAccepts` | src/main/java/nl/enjarai/client_paintings/ClientPaintingManager.java:86-91 | the converse of `DecodeReads`: every object with a string `texture`, a string `back` when present, and a `size` array whose first two items are numbers decodes to those fields, whatever other members it has and however long `size` is |
| `ClientPaintings.DecodedBackTexture` | src/main/java/nl/enjarai/client_paintings/ClientPaintingManager.java:166-168 | a loaded painting's back texture is the descriptor's `back` when present, and `painting/back` otherwise |
| `ClientPaintings.LoadOutcome` | src/main/java/nl/enjarai/client_paintings/ClientPaintingManager.java:84-96 | `loadJson` ends normally iff the resource is unreadable (IOException, caught) or decodes |
| `ClientPaintings.DataOf` | src/main/java/nl/enjarai/client_paintings/ClientPaintingManager.java:36 | the field view of a catalog has the same keys |
| `ClientPaintings.DataOfPut` | src/main/java/nl/enjarai/client_paintings/ClientPaintingManager.java:92 | putting a painting changes the field view at that key only |
| `ClientPaintings.LoadedData` | src/main/java/nl/enjarai/client_paintings/ClientPaintingManager.java:102-108 | the map the fan-out collects: each key is the id of some discovered resource that decodes |
| `ClientPaintings.LoadedDataContents` | src/main/java/nl/enjarai/client_paintings/ClientPaintingManager.java:102-108 | after loading every discovered resource, there is a key exactly for each resource that decodes, holding the fields decoded from it |
| `ClientPaintings.StitchInput` | src/main/java/nl/enjarai/client_paintings/ClientPaintingManager.java:114-117 | the stitch input has two names per painting, and a name is in it iff it is some painting's texture or back texture |
| `ClientPaintings.StitchCoversCatalog` | src/main/java/nl/enjarai/client_paintings/ClientPaintingManager.java:114-117 | the stitch input names the texture and `getBackTexture()` of every painting of the catalog |
| `ClientPaintings.ClientPaintingManager.constructor` | src/main/java/nl/enjarai/client_paintings/ClientPaintingManager.java:39-48 | the default pool is the registry grouped by size, and the catalog starts empty |
| `ClientPaintings.ClientPaintingManager.LoadJson` | src/main/java/nl/enjarai/client_paintings/ClientPaintingManager.java:84-96 | a well-formed descriptor adds exactly one new painting under `id` with the decoded fields, all other entries unchanged, and `id` joins the enumeration if it is new; otherwise the map is unchanged and the failure is returned |
| `ClientPaintings.ClientPaintingManager.Publish` | src/main/java/nl/enjarai/client_paintings/ClientPaintingManager.java:132-134 | after `clear(); putAll(loaded)` the live catalog is exactly the loaded map, with no stale key |
| `ClientPaintings.ClientPaintingManager.Reload` | src/main/java/nl/enjarai/client_paintings/ClientPaintingManager.java:99-137 | a reload succeeds iff every resource is unreadable or decodes. On success the live catalog holds exactly the decoded fields, every painting's id is its own key, and the stitch input is built from the published paintings. On failure the live catalog is unchanged |

## Findings

| source | as written | input that shows it | evidently intended | confidence | as-written member | corrected member |
|---|---|---|---|---|---|---|
| src/main/java/nl/enjarai/client_paintings/ClientPaintingManager.java:62-64 | `Math.abs(uuid.hashCode()) % n` is negative when the hash is `Integer.MIN_VALUE` and `n` does not divide 2^31; `index < matching.size()` lets it through, and `matching.get` throws | one loaded 1x1 painting, two built-in 16x16 variants, a UUID whose hash is `Integer.MIN_VALUE`: `n = 3`, index `-2` | an index in `[0, n)` for every hash (for example `Math.floorMod`, or `abs` taken as a `long`) | high (not executed) | `ClientPaintings.SelectMinHashThrows` | `ClientPaintings.SelectIntended` |

## Left out

- The concurrency of the reload is not modelled: the `CompletableFuture` fan-out and join, the executors and the `Synchronizer.whenPrepared` barrier. `Reload` loads the discovered resources one after the other. Identifiers are distinct, so the order of the puts does not change the resulting entries.
- Atlas creation, stitching and upload are not modelled (`getSpriteAtlas`, `SpriteAtlasTexture.stitch`/`upload`, `getSprite`, `getBackSprite`, texture registration). They are rendering calls whose code is not part of this model. The model computes the stitch input and assumes that stitching and upload succeed.
- Resource discovery (`findResources`), `Reader` handling and JSON text parsing are not modelled. A discovered resource is given as `Unreadable` (the `IOException` from `getReader`), `Unparseable` (a syntax error), or an already-decoded `Json` tree.
- DecodePainting: Gson's lenient conversions are treated as failures. These are a number or boolean read as a string, a numeric string read as an int, a one-element array read as its element, and a fractional number. Numbers are integers in the model. Out-of-range integers wrap to 32 bits, as `Number.intValue` does.
- Identifiers are kept as the strings written in the descriptor. `Identifier`'s namespace defaulting and character validation are not part of this model. Neither is the `InvalidIdentifierException` it can throw.
- `UUID.hashCode()` is not modelled: the selector takes the hash as an `int32` parameter.
- The registry contents are an input sequence. A `PaintingVariant` is modelled by its registry key, width and height only.
- `nl.enjarai.client_paintings.util.Vec2i` is not part of this model. It is assumed to compare by value (`equals` and `hashCode` over both coordinates), which the `containsKey` and `get` calls need in order to find a size. The model's `Vec2i` is a datatype and compares by value.
- `getFabricId`, the profiler calls and the logger line are not modelled.
- `HashMap` iteration order is unspecified. `PaintingTable` keeps insertion order as one valid enumeration. The selector's lemmas hold for every enumeration of the catalog.
- Select: the sum `matching.size() + defaults.size()` is not wrapped to 32 bits. Two in-memory lists cannot come near 2^31 elements.
- The share of hashes that select a loaded painting is not stated. Only the per-hash index rule (`SelectByIndex`) is.
- `getTexture`, `getSizeX` and `getSizeY` are plain field reads. They appear as the painting's `const` fields.
