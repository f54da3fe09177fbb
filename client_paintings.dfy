/**
 * The painting manager of the client_paintings mod: the catalog of loaded paintings, the
 * field extraction that turns one decoded descriptor into a painting, the reload that
 * replaces the catalog, the list of textures handed to the atlas stitcher, and the
 * size-keyed selector that picks a loaded painting (or none) for an entity.
 */
module ClientPaintings {
  import opened Wrappers
  import opened JavaInt
  import opened JsonValue
  import opened DefaultPool

  /** A resource identifier, kept as the string it was written as. */
  type Identifier = string

  /** The back texture of a painting whose descriptor names none. */
  const PAINTING_BACK_ID: Identifier := "painting/back"

  /** Side length, in pixels, of one painting unit. */
  const PIXELS_PER_UNIT: int := 16

  // ---------------------------------------------------------------------------
  // Paintings and the catalog

  /** The four fields a descriptor gives a painting. */
  datatype PaintingData = PaintingData(texture: Identifier, back: Option<Identifier>, sizeX: int32, sizeY: int32)

  /**
   * A loaded painting. An object of its own: two paintings with equal fields are still two
   * paintings, and `GetId` looks for this very object in its manager's catalog.
   */
  class ClientPainting {
    const owner: ClientPaintingManager
    const texture: Identifier
    const backTexture: Option<Identifier>
    const sizeX: int32
    const sizeY: int32

    constructor(owner: ClientPaintingManager, texture: Identifier, backTexture: Option<Identifier>, sizeX: int32, sizeY: int32)
      ensures this.owner == owner && Data() == PaintingData(texture, backTexture, sizeX, sizeY)
    {
      this.owner := owner;
      this.texture := texture;
      this.backTexture := backTexture;
      this.sizeX := sizeX;
      this.sizeY := sizeY;
    }

    function Data(): PaintingData
    {
      PaintingData(texture, backTexture, sizeX, sizeY)
    }

    /** The back texture: the one given, or the built-in painting back; never absent. */
    function GetBackTexture(): (r: Identifier)
      ensures backTexture.Some? ==> r == backTexture.value
      ensures backTexture.None? ==> r == PAINTING_BACK_ID
    {
      match backTexture
      case Some(back) => back
      case None => PAINTING_BACK_ID
    }

    /** Width in pixels: the unit width times 16, in 32-bit arithmetic. */
    function PixelsX(): (r: int32)
      ensures (sizeX * PIXELS_PER_UNIT - r) % TWO_32 == 0
      ensures -0x800_0000 <= sizeX < 0x800_0000 ==> r == sizeX * PIXELS_PER_UNIT
    {
      Wrap(sizeX * PIXELS_PER_UNIT)
    }

    /** Height in pixels: the unit height times 16, in 32-bit arithmetic. */
    function PixelsY(): (r: int32)
      ensures (sizeY * PIXELS_PER_UNIT - r) % TWO_32 == 0
      ensures -0x800_0000 <= sizeY < 0x800_0000 ==> r == sizeY * PIXELS_PER_UNIT
    {
      Wrap(sizeY * PIXELS_PER_UNIT)
    }

    /** The key under which this painting is in its manager's live catalog; None stands for the IllegalStateException. */
    function GetId(): (r: Option<Identifier>)
      reads owner.paintings
      ensures r.Some? ==> r.value in owner.paintings.entries && owner.paintings.entries[r.value] == this
      ensures r.None? ==> this !in owner.paintings.entries.Values || !owner.paintings.Valid()
    {
      FindKey(owner.paintings.entries, owner.paintings.order, this)
    }
  }

  /** `order` lists every key of the map once: an enumeration order of the map. */
  ghost predicate Enumerates(order: seq<Identifier>, keys: set<Identifier>)
  {
    && (forall i, j :: 0 <= i < j < |order| ==> order[i] != order[j])
    && (forall k :: k in keys <==> k in order)
  }

  /** No painting object is stored under two keys. */
  ghost predicate Injective(entries: map<Identifier, ClientPainting>)
  {
    forall a, b :: a in entries && b in entries && entries[a] == entries[b] ==> a == b
  }

  /** The values of a map in an enumeration order, as `values().stream()` produces them. */
  function ValuesInOrder(entries: map<Identifier, ClientPainting>, order: seq<Identifier>): (r: seq<ClientPainting>)
    requires forall k :: k in order ==> k in entries
    ensures |r| == |order|
    ensures forall i :: 0 <= i < |order| ==> r[i] == entries[order[i]]
    ensures forall p :: p in r ==> p in entries.Values
  {
    seq(|order|, i requires 0 <= i < |order| => entries[order[i]])
  }

  /** A value is listed by an enumeration exactly when it is a value of the map. */
  lemma ValuesInOrderMembers(entries: map<Identifier, ClientPainting>, order: seq<Identifier>)
    requires Enumerates(order, entries.Keys)
    ensures forall p :: p in ValuesInOrder(entries, order) <==> p in entries.Values
  {
    var values := ValuesInOrder(entries, order);
    forall p | p in entries.Values
      ensures p in values
    {
      var k :| k in entries && entries[k] == p;
      var i :| 0 <= i < |order| && order[i] == k;
      assert values[i] == p;
    }
  }

  /**
   * The first key, in enumeration order, whose value is the painting `p` itself; the search
   * `getId` runs over the entries of the catalog.
   */
  function FindKey(entries: map<Identifier, ClientPainting>, order: seq<Identifier>, p: ClientPainting): (r: Option<Identifier>)
    ensures r.Some? ==> r.value in order && r.value in entries && entries[r.value] == p
    ensures r.None? ==> forall k :: k in order && k in entries ==> entries[k] != p
  {
    if order == [] then None
    else if order[0] in entries && entries[order[0]] == p then Some(order[0])
    else FindKey(entries, order[1..], p)
  }

  /** The search stops at the first key holding the painting, as `findFirst` does. */
  lemma {:induction false} FindKeyFirst(entries: map<Identifier, ClientPainting>, order: seq<Identifier>, p: ClientPainting, j: int)
    requires 0 <= j < |order| && order[j] in entries && entries[order[j]] == p
    ensures FindKey(entries, order, p).Some? && FindKey(entries, order, p).value in order[..j + 1]
  {
    if !(order[0] in entries && entries[order[0]] == p) {
      FindKeyFirst(entries, order[1..], p, j - 1);
      assert order[1..][..j] == order[1..j + 1];
    }
  }

  /** Over a valid catalog where no painting has two keys, a painting's id is the key it is stored under. */
  lemma FindOwnKey(entries: map<Identifier, ClientPainting>, order: seq<Identifier>, id: Identifier)
    requires Enumerates(order, entries.Keys) && Injective(entries)
    requires id in entries
    ensures FindKey(entries, order, entries[id]) == Some(id)
  {
  }

  /** A mutable `java.util.Map<Identifier, ClientPainting>`, with an enumeration order for its entries. */
  class PaintingTable {
    var entries: map<Identifier, ClientPainting>
    var order: seq<Identifier>

    ghost predicate Valid()
      reads this
    {
      Enumerates(order, entries.Keys)
    }

    constructor()
      ensures Valid() && entries == map[] && order == []
    {
      entries := map[];
      order := [];
    }

    /** `put`: a new key goes to the end of the enumeration, an existing one keeps its place. */
    method Put(id: Identifier, p: ClientPainting)
      requires Valid()
      modifies this
      ensures Valid()
      ensures entries == old(entries)[id := p]
      ensures order == if id in old(entries) then old(order) else old(order) + [id]
    {
      if id !in entries {
        order := order + [id];
      }
      entries := entries[id := p];
    }

    /** `clear` */
    method Clear()
      modifies this
      ensures Valid() && entries == map[] && order == []
    {
      entries := map[];
      order := [];
    }

    /** `putAll`: every entry of `other` is put, in `other`'s enumeration order. */
    method PutAll(other: PaintingTable)
      requires Valid() && other.Valid() && other != this
      modifies this
      ensures Valid()
      ensures entries == old(entries) + other.entries
      ensures old(order) == [] ==> order == other.order
    {
      for i := 0 to |other.order|
        invariant Valid()
        invariant forall k :: k in entries <==> k in old(entries) || k in other.order[..i]
        invariant forall k :: k in other.order[..i] ==> entries[k] == other.entries[k]
        invariant forall k :: k in old(entries) && k !in other.order[..i] ==> entries[k] == old(entries)[k]
        invariant old(order) == [] ==> order == other.order[..i]
      {
        var id := other.order[i];
        assert id !in other.order[..i];
        assert other.order[..i + 1] == other.order[..i] + [id];
        Put(id, other.entries[id]);
      }
      assert other.order[..|other.order|] == other.order;
      assert entries.Keys == (old(entries) + other.entries).Keys;
    }
  }

  // ---------------------------------------------------------------------------
  // The selector

  /** Java's NullPointerException (no defaults for the size) and IndexOutOfBoundsException (negative index). */
  datatype SelectError = NoDefaultsForSize(size: Vec2i) | IndexOutOfBounds(index: int)

  predicate HasPixelSize(p: ClientPainting, sizeX: int32, sizeY: int32)
  {
    p.PixelsX() == sizeX && p.PixelsY() == sizeY
  }

  /** The paintings of the given pixel size, in the order given: the stream filter of the selector. */
  function Matching(values: seq<ClientPainting>, sizeX: int32, sizeY: int32): (r: seq<ClientPainting>)
    ensures |r| <= |values|
    ensures forall i :: 0 <= i < |r| ==> HasPixelSize(r[i], sizeX, sizeY)
  {
    if values == [] then []
    else (if HasPixelSize(values[0], sizeX, sizeY) then [values[0]] else []) + Matching(values[1..], sizeX, sizeY)
  }

  /** The filter keeps exactly the paintings of the requested pixel size. */
  lemma {:induction false} MatchingMembers(values: seq<ClientPainting>, sizeX: int32, sizeY: int32)
    ensures forall p {:trigger p in Matching(values, sizeX, sizeY)} ::
              p in Matching(values, sizeX, sizeY) ==> p in values && HasPixelSize(p, sizeX, sizeY)
    ensures forall p :: p in values && HasPixelSize(p, sizeX, sizeY) ==> p in Matching(values, sizeX, sizeY)
  {
    if values != [] {
      MatchingMembers(values[1..], sizeX, sizeY);
      assert values == [values[0]] + values[1..];
    }
  }

  /**
   * Filtering a concatenation filters each part: the filter keeps every painting of the
   * requested size, each as often as it is listed, in the order it is listed.
   */
  lemma {:induction false} MatchingAppend(a: seq<ClientPainting>, b: seq<ClientPainting>, sizeX: int32, sizeY: int32)
    ensures Matching(a + b, sizeX, sizeY) == Matching(a, sizeX, sizeY) + Matching(b, sizeX, sizeY)
  {
    if a == [] {
      assert a + b == b;
    } else {
      var head := if HasPixelSize(a[0], sizeX, sizeY) then [a[0]] else [];
      MatchingAppend(a[1..], b, sizeX, sizeY);
      assert (a + b)[1..] == a[1..] + b;
      assert (a + b)[0] == a[0];
      calc {
        Matching(a + b, sizeX, sizeY);
        head + Matching(a[1..] + b, sizeX, sizeY);
        head + (Matching(a[1..], sizeX, sizeY) + Matching(b, sizeX, sizeY));
        (head + Matching(a[1..], sizeX, sizeY)) + Matching(b, sizeX, sizeY);
        Matching(a, sizeX, sizeY) + Matching(b, sizeX, sizeY);
      }
    }
  }

  /**
   * The selector's index as Java computes it, `Math.abs(hash) % n`: the mathematical
   * `|hash| mod n` for every hash but INT_MIN, whose absolute value stays negative.
   */
  function UuidIndex(hash: int32, n: int): (r: int)
    requires n > 0
    ensures hash != INT_MIN ==> r == (if hash < 0 then -(hash as int) else hash as int) % n
    ensures hash == INT_MIN ==> r == -(0x8000_0000 % n)
  {
    Rem(Abs(hash), n)
  }

  /**
   * `getPaintingFromUUID` as written: `Success(None)` is the null result (use a built-in
   * painting), `Failure` an exception. `hash` is the entity UUID's `hashCode()`.
   */
  function Select(entries: map<Identifier, ClientPainting>, order: seq<Identifier>,
                  defaults: map<Vec2i, seq<PaintingVariant>>, hash: int32, sizeX: int32, sizeY: int32)
    : (r: Result<Option<ClientPainting>, SelectError>)
    requires Enumerates(order, entries.Keys)
    ensures |entries| == 0 ==> r == Success(None)
    ensures Matching(ValuesInOrder(entries, order), sizeX, sizeY) == [] ==> r == Success(None)
    ensures r.Success? && r.value.Some? ==> r.value.value in entries.Values && HasPixelSize(r.value.value, sizeX, sizeY)
    ensures Matching(ValuesInOrder(entries, order), sizeX, sizeY) != [] && Vec2i(sizeX, sizeY) !in defaults ==>
              r == Failure(NoDefaultsForSize(Vec2i(sizeX, sizeY)))
    ensures r.Failure? ==>
              || (r.error == NoDefaultsForSize(Vec2i(sizeX, sizeY)) && Vec2i(sizeX, sizeY) !in defaults)
              || (r.error.IndexOutOfBounds? && r.error.index < 0 && hash == INT_MIN)
  {
    if |entries| == 0 then Success(None)
    else
      var matching := Matching(ValuesInOrder(entries, order), sizeX, sizeY);
      if |matching| == 0 then Success(None)
      else
        var size := Vec2i(sizeX, sizeY);
        if size !in defaults then Failure(NoDefaultsForSize(size))
        else
          var index := UuidIndex(hash, |matching| + |defaults[size]|);
          if index < |matching| then
            if 0 <= index then
              MatchingMembers(ValuesInOrder(entries, order), sizeX, sizeY);
              MatchingInCatalog(entries, order, sizeX, sizeY, index);
              Success(Some(matching[index]))
            else Failure(IndexOutOfBounds(index))
          else Success(None)
  }

  /**
   * The selector as evidently intended: the absolute value of the hash taken without
   * 32-bit wrap-around, so the index always lies in `[0, |matching| + |defaults|)`.
   */
  function SelectIntended(entries: map<Identifier, ClientPainting>, order: seq<Identifier>,
                          defaults: map<Vec2i, seq<PaintingVariant>>, hash: int32, sizeX: int32, sizeY: int32)
    : (r: Result<Option<ClientPainting>, SelectError>)
    requires Enumerates(order, entries.Keys)
    ensures r.Failure? ==> r == Failure(NoDefaultsForSize(Vec2i(sizeX, sizeY)))
    ensures Matching(ValuesInOrder(entries, order), sizeX, sizeY) != [] && Vec2i(sizeX, sizeY) !in defaults ==>
              r == Failure(NoDefaultsForSize(Vec2i(sizeX, sizeY)))
    ensures r.Success? && r.value.Some? ==> r.value.value in entries.Values && HasPixelSize(r.value.value, sizeX, sizeY)
  {
    if |entries| == 0 then Success(None)
    else
      var matching := Matching(ValuesInOrder(entries, order), sizeX, sizeY);
      if |matching| == 0 then Success(None)
      else
        var size := Vec2i(sizeX, sizeY);
        if size !in defaults then Failure(NoDefaultsForSize(size))
        else
          var index := (if hash < 0 then -(hash as int) else hash as int) % (|matching| + |defaults[size]|);
          if index < |matching| then
            MatchingInCatalog(entries, order, sizeX, sizeY, index);
            Success(Some(matching[index]))
          else Success(None)
  }

  /**
   * For every hash other than INT_MIN, with a defaults list for the size, the selector
   * returns `matching[|hash| mod (|matching| + |defaults|)]` when that index falls among
   * the matching paintings and null otherwise.
   */
  lemma SelectByIndex(entries: map<Identifier, ClientPainting>, order: seq<Identifier>,
                      defaults: map<Vec2i, seq<PaintingVariant>>, hash: int32, sizeX: int32, sizeY: int32)
    requires Enumerates(order, entries.Keys)
    requires hash != INT_MIN && Vec2i(sizeX, sizeY) in defaults
    ensures var matching := Matching(ValuesInOrder(entries, order), sizeX, sizeY);
            var n := |matching| + |defaults[Vec2i(sizeX, sizeY)]|;
            var index := if n == 0 then 0 else (if hash < 0 then -(hash as int) else hash as int) % n;
            Select(entries, order, defaults, hash, sizeX, sizeY) ==
              if index < |matching| then Success(Some(matching[index])) else Success(None)
  {
    var matching := Matching(ValuesInOrder(entries, order), sizeX, sizeY);
    if matching != [] {
      MatchingNonEmpty(entries, order, sizeX, sizeY);
    }
  }

  /** Every matching painting is a painting of the catalog of the requested size. */
  lemma MatchingInCatalog(entries: map<Identifier, ClientPainting>, order: seq<Identifier>, sizeX: int32, sizeY: int32, i: int)
    requires Enumerates(order, entries.Keys)
    requires 0 <= i < |Matching(ValuesInOrder(entries, order), sizeX, sizeY)|
    ensures Matching(ValuesInOrder(entries, order), sizeX, sizeY)[i] in entries.Values
    ensures HasPixelSize(Matching(ValuesInOrder(entries, order), sizeX, sizeY)[i], sizeX, sizeY)
  {
    var values := ValuesInOrder(entries, order);
    var p := Matching(values, sizeX, sizeY)[i];
    MatchingMembers(values, sizeX, sizeY);
    assert p in Matching(values, sizeX, sizeY);
    var j :| 0 <= j < |values| && values[j] == p;
    assert order[j] in entries && entries[order[j]] == p;
  }

  /** Some painting matching means the catalog is not empty. */
  lemma MatchingNonEmpty(entries: map<Identifier, ClientPainting>, order: seq<Identifier>, sizeX: int32, sizeY: int32)
    requires Enumerates(order, entries.Keys)
    requires Matching(ValuesInOrder(entries, order), sizeX, sizeY) != []
    ensures |entries| != 0
  {
    var matching := Matching(ValuesInOrder(entries, order), sizeX, sizeY);
    MatchingMembers(ValuesInOrder(entries, order), sizeX, sizeY);
    assert matching[0] in matching;
    assert matching[0] in ValuesInOrder(entries, order);
    assert order[0] in entries;
  }

  /**
   * With hash INT_MIN, `Math.abs` leaves the hash negative and Java's `%` gives the index
   * `-(2^31 mod n)`: the selector picks `matching[0]` when `n` divides 2^31 and throws otherwise.
   */
  lemma SelectMinHash(entries: map<Identifier, ClientPainting>, order: seq<Identifier>,
                      defaults: map<Vec2i, seq<PaintingVariant>>, sizeX: int32, sizeY: int32)
    requires Enumerates(order, entries.Keys)
    requires Vec2i(sizeX, sizeY) in defaults
    requires Matching(ValuesInOrder(entries, order), sizeX, sizeY) != []
    ensures var matching := Matching(ValuesInOrder(entries, order), sizeX, sizeY);
            var n := |matching| + |defaults[Vec2i(sizeX, sizeY)]|;
            Select(entries, order, defaults, INT_MIN, sizeX, sizeY) ==
              if 0x8000_0000 % n == 0 then Success(Some(matching[0]))
              else Failure(IndexOutOfBounds(-(0x8000_0000 % n)))
  {
    MatchingNonEmpty(entries, order, sizeX, sizeY);
  }

  /**
   * The counterexample: one loaded 1x1 painting (16x16 pixels) and two built-in 16x16
   * variants give a divisor of 3, and the hash INT_MIN makes the selector throw on index -2.
   */
  lemma SelectMinHashThrows(id: Identifier, p: ClientPainting, v1: PaintingVariant, v2: PaintingVariant)
    requires p.sizeX == 1 && p.sizeY == 1
    ensures Select(map[id := p], [id], map[Vec2i(16, 16) := [v1, v2]], INT_MIN, 16, 16)
            == Failure(IndexOutOfBounds(-2))
  {
    var entries := map[id := p];
    assert ValuesInOrder(entries, [id]) == [p];
    assert Matching([p], 16, 16) == [p];
    SelectMinHash(entries, [id], map[Vec2i(16, 16) := [v1, v2]], 16, 16);
  }

  /** The corrected selector never throws for lack of a valid index, and agrees with the code for every other hash. */
  lemma SelectIntendedAgrees(entries: map<Identifier, ClientPainting>, order: seq<Identifier>,
                             defaults: map<Vec2i, seq<PaintingVariant>>, hash: int32, sizeX: int32, sizeY: int32)
    requires Enumerates(order, entries.Keys)
    ensures Vec2i(sizeX, sizeY) in defaults ==> SelectIntended(entries, order, defaults, hash, sizeX, sizeY).Success?
    ensures hash != INT_MIN ==>
              SelectIntended(entries, order, defaults, hash, sizeX, sizeY) == Select(entries, order, defaults, hash, sizeX, sizeY)
  {
  }

  /**
   * The pick depends on the catalog only through its matching paintings: two catalogs with
   * the same matching sequence give the same answer for every hash.
   */
  lemma SelectStable(entries1: map<Identifier, ClientPainting>, order1: seq<Identifier>,
                     entries2: map<Identifier, ClientPainting>, order2: seq<Identifier>,
                     defaults: map<Vec2i, seq<PaintingVariant>>, hash: int32, sizeX: int32, sizeY: int32)
    requires Enumerates(order1, entries1.Keys) && Enumerates(order2, entries2.Keys)
    requires Matching(ValuesInOrder(entries1, order1), sizeX, sizeY) == Matching(ValuesInOrder(entries2, order2), sizeX, sizeY)
    ensures Select(entries1, order1, defaults, hash, sizeX, sizeY) == Select(entries2, order2, defaults, hash, sizeX, sizeY)
  {
    var matching := Matching(ValuesInOrder(entries1, order1), sizeX, sizeY);
    if matching != [] {
      MatchingNonEmpty(entries1, order1, sizeX, sizeY);
      MatchingNonEmpty(entries2, order2, sizeX, sizeY);
    }
  }

  // ---------------------------------------------------------------------------
  // Descriptor field extraction

  /** The exceptions `loadJson` lets escape, one per way a decoded descriptor can be malformed. */
  datatype LoadError =
    | MalformedJson
    | NotAnObject
    | MissingMember(name: string)
    | NotAString(name: string)
    | NotAnArray(name: string)
    | SizeTooShort(index: nat)
    | NotAnInt(index: nat)

  /**
   * The fields `loadJson` reads from a decoded descriptor, in the order it reads them:
   * "texture" (a string), "back" (a string, if present), "size" (an array whose first two
   * elements are the width and the height, taken as 32-bit ints).
   */
  function DecodePainting(json: Json): (r: Result<PaintingData, LoadError>)
  {
    if !json.JObject? then Failure(NotAnObject)
    else
      var members := json.members;
      if "texture" !in members then Failure(MissingMember("texture"))
      else if !members["texture"].JString? then Failure(NotAString("texture"))
      else if "back" in members && !members["back"].JString? then Failure(NotAString("back"))
      else if "size" !in members then Failure(MissingMember("size"))
      else if !members["size"].JArray? then Failure(NotAnArray("size"))
      else
        var size := members["size"].items;
        if |size| < 1 then Failure(SizeTooShort(0))
        else if !size[0].JNumber? then Failure(NotAnInt(0))
        else if |size| < 2 then Failure(SizeTooShort(1))
        else if !size[1].JNumber? then Failure(NotAnInt(1))
        else
          var back := if "back" in members then Some(members["back"].s) else None;
          Success(PaintingData(members["texture"].s, back, Wrap(size[0].n), Wrap(size[1].n)))
  }

  /** The descriptor a painting's fields are written as. */
  function EncodePainting(data: PaintingData): Json
  {
    var required := map["texture" := JString(data.texture), "size" := JArray([JNumber(data.sizeX), JNumber(data.sizeY)])];
    match data.back
    case Some(back) => JObject(required["back" := JString(back)])
    case None => JObject(required)
  }

  /** Decoding a written descriptor gives back the four fields. */
  lemma DecodeEncode(data: PaintingData)
    ensures DecodePainting(EncodePainting(data)) == Success(data)
  {
    assert "back" != "texture" && "back" != "size" && "size" != "texture";
  }

  /**
   * What a successful decode read: the texture string, the back string exactly when "back"
   * is present, and two numbers that wrap to the width and the height.
   */
  lemma DecodeReads(json: Json, data: PaintingData)
    requires DecodePainting(json) == Success(data)
    ensures json.JObject? && "texture" in json.members && json.members["texture"] == JString(data.texture)
    ensures data.back.Some? <==> "back" in json.members
    ensures data.back.Some? ==> json.members["back"] == JString(data.back.value)
    ensures "size" in json.members && json.members["size"].JArray? && |json.members["size"].items| >= 2
    ensures json.members["size"].items[0].JNumber? && Wrap(json.members["size"].items[0].n) == data.sizeX
    ensures json.members["size"].items[1].JNumber? && Wrap(json.members["size"].items[1].n) == data.sizeY
  {
  }

  /**
   * Every object of the shape `loadJson` reads decodes, whatever other members it has and
   * however long its "size" array is: a string "texture", a string "back" when present, and
   * a "size" array whose first two items are numbers.
   */
  lemma DecodeAccepts(json: Json)
    requires json.JObject? && "texture" in json.members && json.members["texture"].JString?
    requires "back" in json.members ==> json.members["back"].JString?
    requires "size" in json.members && json.members["size"].JArray? && |json.members["size"].items| >= 2
    requires json.members["size"].items[0].JNumber? && json.members["size"].items[1].JNumber?
    ensures DecodePainting(json) == Success(PaintingData(
              json.members["texture"].s,
              if "back" in json.members then Some(json.members["back"].s) else None,
              Wrap(json.members["size"].items[0].n),
              Wrap(json.members["size"].items[1].n)))
  {
  }

  /** A painting built from a decoded descriptor shows its "back" member as back texture, or the built-in back when there is none. */
  lemma DecodedBackTexture(json: Json, p: ClientPainting)
    requires DecodePainting(json).Success? && p.Data() == DecodePainting(json).value
    ensures json.JObject?
    ensures "back" in json.members ==> json.members["back"] == JString(p.GetBackTexture())
    ensures "back" !in json.members ==> p.GetBackTexture() == PAINTING_BACK_ID
  {
  }

  /** A discovered descriptor resource: its reader fails (IOException), its text is not JSON, or it decodes. */
  datatype Resource = Unreadable | Unparseable | Parsed(json: Json)

  /** How `loadJson` ends for a resource: only the IOException is caught. */
  function LoadOutcome(resource: Resource): (r: Outcome<LoadError>)
    ensures r.Pass? <==> resource.Unreadable? || (resource.Parsed? && DecodePainting(resource.json).Success?)
  {
    match resource
    case Unreadable => Pass
    case Unparseable => Fail(MalformedJson)
    case Parsed(json) =>
      match DecodePainting(json)
      case Success(_) => Pass
      case Failure(e) => Fail(e)
  }

  /** Whether `loadJson` puts an entry for this resource. */
  predicate Inserts(resource: Resource)
  {
    resource.Parsed? && DecodePainting(resource.json).Success?
  }

  /** No identifier is discovered twice: `findResources` returns a map. */
  ghost predicate DistinctIds(discovered: seq<(Identifier, Resource)>)
  {
    forall i, j :: 0 <= i < j < |discovered| ==> discovered[i].0 != discovered[j].0
  }

  /** The fields of every painting of a map. */
  function DataOf(entries: map<Identifier, ClientPainting>): (r: map<Identifier, PaintingData>)
    ensures r.Keys == entries.Keys
  {
    map k | k in entries :: entries[k].Data()
  }

  lemma DataOfPut(entries: map<Identifier, ClientPainting>, id: Identifier, p: ClientPainting)
    ensures DataOf(entries[id := p]) == DataOf(entries)[id := p.Data()]
  {
  }

  /** What loading the discovered resources one after the other puts in the map, by field. */
  function LoadedData(discovered: seq<(Identifier, Resource)>): (r: map<Identifier, PaintingData>)
    ensures r.Keys <= set i | 0 <= i < |discovered| && Inserts(discovered[i].1) :: discovered[i].0
  {
    if discovered == [] then map[]
    else
      var rest := LoadedData(discovered[..|discovered| - 1]);
      var (id, resource) := discovered[|discovered| - 1];
      if Inserts(resource) then rest[id := DecodePainting(resource.json).value] else rest
  }

  /**
   * The loaded map has a key exactly for each discovered resource that decodes, holding
   * the fields decoded from that resource.
   */
  lemma {:induction false} LoadedDataContents(discovered: seq<(Identifier, Resource)>)
    requires DistinctIds(discovered)
    ensures forall k :: k in LoadedData(discovered) <==>
              exists i :: 0 <= i < |discovered| && discovered[i].0 == k && Inserts(discovered[i].1)
    ensures forall i :: 0 <= i < |discovered| && Inserts(discovered[i].1) ==>
              LoadedData(discovered)[discovered[i].0] == DecodePainting(discovered[i].1.json).value
  {
    if discovered != [] {
      var last := |discovered| - 1;
      var prefix := discovered[..last];
      assert DistinctIds(prefix);
      LoadedDataContents(prefix);
      forall i | 0 <= i < |discovered| && Inserts(discovered[i].1)
        ensures discovered[i].0 in LoadedData(discovered)
        ensures LoadedData(discovered)[discovered[i].0] == DecodePainting(discovered[i].1.json).value
      {
        if i < last {
          assert prefix[i] == discovered[i];
          assert discovered[i].0 != discovered[last].0;
        }
      }
    }
  }

  // ---------------------------------------------------------------------------
  // Stitch input

  /** The sprites handed to the atlas: every painting's texture, then every painting's back texture. */
  function StitchInput(values: seq<ClientPainting>): (r: seq<Identifier>)
    ensures |r| == 2 * |values|
    ensures forall t :: t in r <==> exists i :: 0 <= i < |values| && (t == values[i].texture || t == values[i].GetBackTexture())
  {
    var textures := seq(|values|, i requires 0 <= i < |values| => values[i].texture);
    var backs := seq(|values|, i requires 0 <= i < |values| => values[i].GetBackTexture());
    assert forall i :: 0 <= i < |values| ==> textures[i] == values[i].texture && backs[i] == values[i].GetBackTexture();
    textures + backs
  }

  /** The stitch input built from a catalog names the front and the back texture of every painting in it. */
  lemma StitchCoversCatalog(entries: map<Identifier, ClientPainting>, order: seq<Identifier>)
    requires Enumerates(order, entries.Keys)
    ensures forall k :: k in entries ==>
              && entries[k].texture in StitchInput(ValuesInOrder(entries, order))
              && entries[k].GetBackTexture() in StitchInput(ValuesInOrder(entries, order))
  {
    var values := ValuesInOrder(entries, order);
    forall k | k in entries
      ensures entries[k].texture in StitchInput(values) && entries[k].GetBackTexture() in StitchInput(values)
    {
      var i :| 0 <= i < |order| && order[i] == k;
      assert values[i] == entries[k];
    }
  }

  // ---------------------------------------------------------------------------
  // The manager

  class ClientPaintingManager {
    /** The built-in paintings by size, built once from the registry. */
    const defaultPaintings: map<Vec2i, seq<PaintingVariant>>
    /** The live catalog. */
    const paintings: PaintingTable

    /** Groups the registry into the default pool and starts with an empty catalog. */
    constructor(registry: seq<PaintingVariant>)
      ensures defaultPaintings == Grouped(registry)
      ensures fresh(paintings) && paintings.Valid() && paintings.entries == map[]
    {
      var pool := GroupBySize(registry);
      defaultPaintings := pool;
      paintings := new PaintingTable();
    }

    /** `getPaintingFromUUID` over the live catalog and the default pool. */
    function GetPaintingFromUUID(hash: int32, sizeX: int32, sizeY: int32): (r: Result<Option<ClientPainting>, SelectError>)
      reads paintings
      requires paintings.Valid()
      ensures |paintings.entries| == 0 ==> r == Success(None)
      ensures r.Success? && r.value.Some? ==>
                r.value.value in paintings.entries.Values && HasPixelSize(r.value.value, sizeX, sizeY)
      ensures Matching(ValuesInOrder(paintings.entries, paintings.order), sizeX, sizeY) != []
              && Vec2i(sizeX, sizeY) !in defaultPaintings ==>
                r == Failure(NoDefaultsForSize(Vec2i(sizeX, sizeY)))
      ensures r.Failure? ==>
                || (r.error == NoDefaultsForSize(Vec2i(sizeX, sizeY)) && Vec2i(sizeX, sizeY) !in defaultPaintings)
                || (r.error.IndexOutOfBounds? && hash == INT_MIN)
    {
      Select(paintings.entries, paintings.order, defaultPaintings, hash, sizeX, sizeY)
    }

    /**
     * `loadJson`: decodes one resource and puts the new painting under `id`; an unreadable
     * resource is skipped, any other failure leaves the map as it was.
     */
    method LoadJson(id: Identifier, resource: Resource, table: PaintingTable) returns (outcome: Outcome<LoadError>)
      requires table.Valid()
      modifies table
      ensures table.Valid()
      ensures outcome == LoadOutcome(resource)
      ensures !Inserts(resource) ==> table.entries == old(table.entries) && table.order == old(table.order)
      ensures Inserts(resource) ==>
                && id in table.entries
                && fresh(table.entries[id])
                && table.entries[id].owner == this
                && table.entries[id].Data() == DecodePainting(resource.json).value
                && table.entries == old(table.entries)[id := table.entries[id]]
                && table.order == if id in old(table.entries) then old(table.order) else old(table.order) + [id]
    {
      match resource
      case Unreadable =>
        outcome := Pass;
      case Unparseable =>
        outcome := Fail(MalformedJson);
      case Parsed(json) =>
        var decoded := DecodePainting(json);
        if decoded.Failure? {
          outcome := Fail(decoded.error);
        } else {
          var data := decoded.value;
          var painting := new ClientPainting(this, data.texture, data.back, data.sizeX, data.sizeY);
          table.Put(id, painting);
          outcome := Pass;
        }
    }

    /**
     * The publish step: `clear()` then `putAll(loaded)`. The live catalog becomes exactly the
     * loaded map, with no key left over from before.
     */
    method Publish(loaded: PaintingTable)
      requires paintings.Valid() && loaded.Valid() && loaded != paintings
      modifies paintings
      ensures paintings.Valid()
      ensures paintings.entries == loaded.entries && paintings.order == loaded.order
    {
      paintings.Clear();
      paintings.PutAll(loaded);
    }

    /**
     * A reload: every discovered descriptor is loaded into a fresh map, the stitch input is
     * built from it, and the map is published. Any load failure other than an unreadable
     * resource fails the whole reload and the live catalog stays as it was.
     */
    method Reload(discovered: seq<(Identifier, Resource)>) returns (outcome: Outcome<LoadError>, stitchInput: seq<Identifier>)
      requires paintings.Valid()
      requires DistinctIds(discovered)
      modifies paintings
      ensures paintings.Valid()
      ensures outcome.Pass? <==> forall i :: 0 <= i < |discovered| ==> LoadOutcome(discovered[i].1).Pass?
      ensures outcome.Fail? ==> exists i :: 0 <= i < |discovered| && LoadOutcome(discovered[i].1) == outcome
      ensures outcome.Fail? ==> paintings.entries == old(paintings.entries) && paintings.order == old(paintings.order)
      ensures outcome.Pass? ==> DataOf(paintings.entries) == LoadedData(discovered)
      ensures outcome.Pass? ==> forall k :: k in paintings.entries ==> paintings.entries[k].GetId() == Some(k)
      ensures outcome.Pass? ==> stitchInput == StitchInput(ValuesInOrder(paintings.entries, paintings.order))
    {
      var loaded := new PaintingTable();
      for n := 0 to |discovered|
        invariant loaded.Valid() && fresh(loaded)
        invariant forall i :: 0 <= i < n ==> LoadOutcome(discovered[i].1).Pass?
        invariant DataOf(loaded.entries) == LoadedData(discovered[..n])
        invariant forall k :: k in loaded.entries ==> loaded.entries[k].owner == this
        invariant Injective(loaded.entries)
        invariant paintings.entries == old(paintings.entries) && paintings.order == old(paintings.order)
      {
        var (id, resource) := discovered[n];
        ghost var before := loaded.entries;
        var result := LoadJson(id, resource, loaded);
        if result.Fail? {
          outcome, stitchInput := result, [];
          return;
        }
        assert discovered[..n + 1] == discovered[..n] + [(id, resource)];
        if Inserts(resource) {
          DataOfPut(before, id, loaded.entries[id]);
        }
      }
      assert discovered[..|discovered|] == discovered;
      stitchInput := StitchInput(ValuesInOrder(loaded.entries, loaded.order));
      Publish(loaded);
      forall k | k in paintings.entries
        ensures paintings.entries[k].GetId() == Some(k)
      {
        FindOwnKey(paintings.entries, paintings.order, k);
      }
      outcome := Pass;
    }
  }
}
