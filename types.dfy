/** The records of the wardrobe application. */
module Types {

  /** The clothing categories, in declaration order; `Unknown` marks an unclassified item. */
  datatype Category = Tops | Bottoms | Outerwear | Footwear | Accessories | Dresses | Unknown

  /** The string value each category stands for at run time. */
  function CategoryValue(c: Category): (s: string)
    ensures s != ""
  {
    match c
    case Tops => "Tops"
    case Bottoms => "Bottoms"
    case Outerwear => "Outerwear"
    case Footwear => "Footwear"
    case Accessories => "Accessories"
    case Dresses => "Dresses"
    case Unknown => "Unknown"
  }

  /** `Object.values(Category)`: every category, in declaration order. */
  const CategoryValues: seq<Category> := [Tops, Bottoms, Outerwear, Footwear, Accessories, Dresses, Unknown]

  /** A JavaScript number kept opaque: only the text `${n}` renders it as is used. */
  datatype Number = Number(text: string)

  datatype ClothingItem = ClothingItem(
    id: string,
    name: string,
    category: Category,
    subCategory: string,
    imageUrl: string,   // a data URL
    createdAt: nat)     // milliseconds since the epoch

  /** `Omit<ClothingItem, 'id' | 'createdAt'>`: what the add form hands to the wardrobe. */
  datatype ItemDraft = ItemDraft(name: string, category: Category, subCategory: string, imageUrl: string)

  datatype OutfitRecommendation = OutfitRecommendation(title: string, itemIds: seq<string>, reasoning: string)

  datatype Weather = Weather(temperature: Number, description: string, emoji: string)
}
