/** The rows of core/models.py that the workflow reads: cities, shops,
    categories (a tree by `parent`) and brands. */
module CoreModels {
  import opened Wrappers

  type CityId = nat
  type ShopId = nat
  type CategoryId = nat
  type BrandId = nat

  /** A stored image is referred to by its file name. */
  type ImageRef = string

  datatype City = City(name: string)

  /** A shop; its city is nullable. */
  datatype Shop = Shop(address: string, city: Option<CityId>)

  /** A category; `parent` is nullable (a root category has none). */
  datatype Category = Category(name: string, parent: Option<CategoryId>)

  datatype Brand = Brand(name: string, detail: Option<string>, image: Option<ImageRef>)
}

/** core/serializers.py: the name rule shared by the category and brand
    serializers, and the partial updates of cities, categories and brands. */
module CoreSerializers {
  import opened Wrappers
  import opened CoreModels

  /** The characters a category or brand name may not contain. */
  const SpecialCharacters: string := "!#$%^&*()-+?_=,<>/"

  datatype NameError = SpecialCharactersInName

  /** `any(val in special_characters for val in value)`. */
  function HasSpecialCharacter(value: string): (b: bool)
    ensures b <==> exists i :: 0 <= i < |value| && value[i] in SpecialCharacters
  {
    if value == [] then false
    else
      var rest := HasSpecialCharacter(value[1..]);
      assert forall i :: 1 <= i < |value| ==> value[i] == value[1..][i - 1];
      value[0] in SpecialCharacters || rest
  }

  /** `validate_name` of CategorySerializer and, character for character the
      same, of BrandSerializer. */
  function ValidateName(value: string): (r: Result<string, NameError>)
    ensures r.Ok? <==> forall i :: 0 <= i < |value| ==> value[i] !in SpecialCharacters
    ensures r.Ok? ==> r.value == value
  {
    if HasSpecialCharacter(value) then Err(SpecialCharactersInName) else Ok(value)
  }

  /** A name the validator accepts once is accepted again unchanged, and a
      name carrying any one special character is refused wherever it stands. */
  lemma ValidateNameIdempotent(value: string, prefix: string, suffix: string, c: char)
    requires c in SpecialCharacters
    ensures ValidateName(value).Ok? ==> ValidateName(ValidateName(value).value) == ValidateName(value)
    ensures ValidateName(prefix + [c] + suffix).Err?
  {
    var s := prefix + [c] + suffix;
    assert s[|prefix|] == c;
  }

  /** The keys a partial update may carry; an absent key is `None`. For a
      nullable field the given value is itself an `Option`. */
  datatype CityData = CityData(name: Option<string>)
  datatype CategoryData = CategoryData(name: Option<string>, parentId: Option<Option<CategoryId>>)
  datatype BrandData = BrandData(name: Option<string>, detail: Option<Option<string>>, image: Option<Option<ImageRef>>)

  /** CitySerializer.update: the name is replaced only when one is given. */
  function UpdatedCity(c: City, d: CityData): (r: City)
    ensures d.name.None? ==> r == c
    ensures d.name.Some? ==> r.name == d.name.value
  {
    c.(name := Given(d.name, c.name))
  }

  /** CategorySerializer.update: name and parent each keep their old value
      unless given. */
  function UpdatedCategory(c: Category, d: CategoryData): (r: Category)
    ensures d.name.None? ==> r.name == c.name
    ensures d.name.Some? ==> r.name == d.name.value
    ensures d.parentId.None? ==> r.parent == c.parent
    ensures d.parentId.Some? ==> r.parent == d.parentId.value
  {
    c.(name := Given(d.name, c.name), parent := Given(d.parentId, c.parent))
  }

  /** BrandSerializer.update: name, detail and image each keep their old
      value unless given. */
  function UpdatedBrand(b: Brand, d: BrandData): (r: Brand)
    ensures d.name.None? ==> r.name == b.name
    ensures d.name.Some? ==> r.name == d.name.value
    ensures d.detail.None? ==> r.detail == b.detail
    ensures d.detail.Some? ==> r.detail == d.detail.value
    ensures d.image.None? ==> r.image == b.image
    ensures d.image.Some? ==> r.image == d.image.value
  {
    b.(name := Given(d.name, b.name), detail := Given(d.detail, b.detail), image := Given(d.image, b.image))
  }

  /** Applying the same partial update twice is applying it once, and an
      update that gives no key changes nothing. */
  lemma UpdatesIdempotent(c: City, cd: CityData, g: Category, gd: CategoryData, b: Brand, bd: BrandData)
    ensures UpdatedCity(UpdatedCity(c, cd), cd) == UpdatedCity(c, cd)
    ensures UpdatedCategory(UpdatedCategory(g, gd), gd) == UpdatedCategory(g, gd)
    ensures UpdatedBrand(UpdatedBrand(b, bd), bd) == UpdatedBrand(b, bd)
    ensures UpdatedCity(c, CityData(None)) == c
    ensures UpdatedCategory(g, CategoryData(None, None)) == g
    ensures UpdatedBrand(b, BrandData(None, None, None)) == b
  {
  }
}
