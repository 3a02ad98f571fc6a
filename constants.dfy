/** The list of category names offered to the classifier and to the category picker. */
module Constants {
  import opened Wrappers
  import opened Types
  import Seqs

  /** `CATEGORIES_LIST`: the values of every category except `Unknown`, in declaration order. */
  function CategoriesList(): (list: seq<string>)
    ensures |list| == 6
    ensures "Unknown" !in list
    ensures list == ["Tops", "Bottoms", "Outerwear", "Footwear", "Accessories", "Dresses"]
  {
    var kept := Seqs.Filter(CategoryValues, c => c != Unknown);
    assert kept == [Tops, Bottoms, Outerwear, Footwear, Accessories, Dresses];
    seq(|kept|, i requires 0 <= i < |kept| => CategoryValue(kept[i]))
  }

  /** Every category other than `Unknown` is offered, under its own value. */
  lemma EveryKnownCategoryListed(c: Category)
    ensures CategoryValue(c) in CategoriesList() <==> c != Unknown
  {
    var list := CategoriesList();
    match c
    case Tops => assert list[0] == CategoryValue(c);
    case Bottoms => assert list[1] == CategoryValue(c);
    case Outerwear => assert list[2] == CategoryValue(c);
    case Footwear => assert list[3] == CategoryValue(c);
    case Accessories => assert list[4] == CategoryValue(c);
    case Dresses => assert list[5] == CategoryValue(c);
    case Unknown =>
  }

  /** The entries of the list are pairwise distinct. */
  lemma CategoriesListDistinct()
    ensures forall i, j :: 0 <= i < j < |CategoriesList()| ==> CategoriesList()[i] != CategoriesList()[j]
  {
  }

  /** `CATEGORIES_LIST.includes(s)`, answered with the category that `s` names. */
  function ListedCategory(s: string): (c: Option<Category>)
    ensures c.Some? <==> s in CategoriesList()
    ensures c.Some? ==> CategoryValue(c.value) == s && c.value != Unknown
  {
    if s == "Tops" then Some(Tops)
    else if s == "Bottoms" then Some(Bottoms)
    else if s == "Outerwear" then Some(Outerwear)
    else if s == "Footwear" then Some(Footwear)
    else if s == "Accessories" then Some(Accessories)
    else if s == "Dresses" then Some(Dresses)
    else None
  }
}
