/** app/inventaire/page.tsx: the stock management page, its search, the
    add/edit modal with its "quit without saving?" confirmation, and the
    delete confirmation. */
module Inventaire {
  import opened Wrappers
  import opened Seqs
  import opened Records
  import opened Store
  import opened Catalogue
  import opened Db

  /** Whether a form submit edits an existing article: `currentArticle?.id`
      is truthy, that is present and not 0. */
  predicate Editing(current: Option<Article>) {
    current.Some? && current.value.id != 0
  }

  /** The delete dialog is rendered when `showDeleteConfirm` is truthy. */
  predicate DeleteDialogShown(showDeleteConfirm: Option<int>) {
    showDeleteConfirm.Some? && showDeleteConfirm.value != 0
  }

  class InventoryPage {
    var articles: seq<Article>
    var isModalOpen: bool
    var currentArticle: Option<Article>
    var search: string
    var showDeleteConfirm: Option<int>
    var showCancelConfirm: bool
    var formDirty: bool

    /** The "quit?" confirmation is only ever shown over an open modal
        holding unsaved changes. */
    predicate Valid()
      reads this
    {
      showCancelConfirm ==> isModalOpen && formDirty
    }

    /** The page as first rendered. */
    constructor ()
      ensures Valid()
      ensures articles == [] && !isModalOpen && currentArticle == None && search == ""
      ensures showDeleteConfirm == None && !showCancelConfirm && !formDirty
    {
      articles, isModalOpen, currentArticle, search := [], false, None, "";
      showDeleteConfirm, showCancelConfirm, formDirty := None, false, false;
    }

    /** `loadData`: the articles store, in key order. */
    method LoadData(db: Database)
      requires Valid()
      modifies this
      ensures Valid()
      ensures articles == db.articles
      ensures isModalOpen == old(isModalOpen) && currentArticle == old(currentArticle)
      ensures search == old(search) && showDeleteConfirm == old(showDeleteConfirm)
      ensures showCancelConfirm == old(showCancelConfirm) && formDirty == old(formDirty)
    {
      articles := db.articles;
    }

    /** The second effect: a non-empty `cat` query parameter becomes the
        search text. */
    method ApplyCategoryFilter(categoryFilter: Option<string>)
      requires Valid()
      modifies this
      ensures Valid()
      ensures search == if categoryFilter.Some? && categoryFilter.value != "" then categoryFilter.value else old(search)
      ensures articles == old(articles) && isModalOpen == old(isModalOpen)
      ensures currentArticle == old(currentArticle) && showDeleteConfirm == old(showDeleteConfirm)
      ensures showCancelConfirm == old(showCancelConfirm) && formDirty == old(formDirty)
    {
      if categoryFilter.Some? && categoryFilter.value != "" {
        search := categoryFilter.value;
      }
    }

    /** `filteredArticles`, with `lower` for `toLowerCase`. */
    function Filtered(lower: string -> string): (r: seq<Article>)
      reads this
      ensures IsSubsequence(r, articles)
      ensures forall a :: a in r <==>
                a in articles &&
                ((exists i :: OccursAt(lower(a.nom), lower(search), i)) ||
                 (exists i :: OccursAt(lower(a.categorie), lower(search), i)))
      ensures search == "" && lower("") == "" ==> r == articles
    {
      FilterArticlesExactly(lower, articles, search);
      if search == "" && lower("") == "" then
        EmptySearchKeepsAll(lower, articles);
        FilterArticles(lower, articles, search)
      else
        FilterArticles(lower, articles, search)
    }

    /** `categoriesExistantes`: the categories offered in the form. */
    function Categories(): (cs: seq<string>)
      reads this
      ensures NoDuplicates(cs)
      ensures forall i :: 0 <= i < |articles| ==> articles[i].categorie in cs
      ensures forall c :: c in cs ==> exists i :: 0 <= i < |articles| && articles[i].categorie == c
    {
      CategoriesExistantesSpec(articles);
      CategoriesExistantes(articles)
    }

    /** "Nouveau Produit": an empty, clean form. The button lies under the
        confirmation's overlay, so it cannot be pressed while that shows. */
    method OpenNew()
      requires Valid() && !showCancelConfirm
      modifies this
      ensures Valid()
      ensures currentArticle == None && isModalOpen && !formDirty
      ensures articles == old(articles) && search == old(search)
      ensures showDeleteConfirm == old(showDeleteConfirm) && showCancelConfirm == old(showCancelConfirm)
    {
      currentArticle, isModalOpen, formDirty := None, true, false;
    }

    /** The edit button of a row: the form filled with `art`, clean. */
    method OpenEdit(art: Article)
      requires Valid() && !showCancelConfirm
      modifies this
      ensures Valid()
      ensures currentArticle == Some(art) && isModalOpen && !formDirty
      ensures articles == old(articles) && search == old(search)
      ensures showDeleteConfirm == old(showDeleteConfirm) && showCancelConfirm == old(showCancelConfirm)
    {
      currentArticle, isModalOpen, formDirty := Some(art), true, false;
    }

    /** The form's `onChange`. */
    method FormChanged()
      requires Valid()
      modifies this
      ensures Valid()
      ensures formDirty
      ensures articles == old(articles) && isModalOpen == old(isModalOpen)
      ensures currentArticle == old(currentArticle) && search == old(search)
      ensures showDeleteConfirm == old(showDeleteConfirm) && showCancelConfirm == old(showCancelConfirm)
    {
      formDirty := true;
    }

    /** `handleCloseModal`: unsaved changes ask for confirmation and keep the
        modal open; a clean form closes and forgets the article. The close
        button belongs to the open modal. */
    method HandleCloseModal()
      requires Valid() && isModalOpen
      modifies this
      ensures Valid()
      ensures old(formDirty) ==> showCancelConfirm && isModalOpen == old(isModalOpen) &&
                                 currentArticle == old(currentArticle)
      ensures !old(formDirty) ==> !isModalOpen && currentArticle == None &&
                                  showCancelConfirm == old(showCancelConfirm)
      ensures formDirty == old(formDirty)
      ensures articles == old(articles) && search == old(search)
      ensures showDeleteConfirm == old(showDeleteConfirm)
    {
      if formDirty {
        showCancelConfirm := true;
      } else {
        isModalOpen := false;
        currentArticle := None;
      }
    }

    /** "Abandonner": close the confirmation and the modal, discard the
        changes; the last article stays in `currentArticle`. */
    method Abandon()
      requires Valid()
      modifies this
      ensures Valid()
      ensures !showCancelConfirm && !isModalOpen && !formDirty
      ensures articles == old(articles) && currentArticle == old(currentArticle)
      ensures search == old(search) && showDeleteConfirm == old(showDeleteConfirm)
    {
      showCancelConfirm, isModalOpen, formDirty := false, false, false;
    }

    /** "Continuer": back to the form, changes kept. */
    method Continue()
      requires Valid()
      modifies this
      ensures Valid()
      ensures !showCancelConfirm
      ensures isModalOpen == old(isModalOpen) && formDirty == old(formDirty)
      ensures articles == old(articles) && currentArticle == old(currentArticle)
      ensures search == old(search) && showDeleteConfirm == old(showDeleteConfirm)
    {
      showCancelConfirm := false;
    }

    /** The form's `onSubmit`, with the four fields as read from the form:
        `updateArticle` under the edited article's id, otherwise
        `addArticle`; then the modal closes and the list reloads. The form
        is only rendered while the modal is open, under the confirmation. */
    method Submit(db: Database, nom: string, prix: int, stock: int, categorie: string)
      requires Valid() && db.Valid() && isModalOpen && !showCancelConfirm
      modifies this, db
      ensures Valid() && db.Valid()
      ensures Editing(old(currentArticle)) ==>
                db.articles == Put(old(db.articles), ArticleKey,
                                   Article(old(currentArticle).value.id, nom, prix, categorie, stock))
      ensures !Editing(old(currentArticle)) ==>
                db.articles == old(db.articles) + [Article(old(db.nextArticleId), nom, prix, categorie, stock)] &&
                db.nextArticleId == old(db.nextArticleId) + 1
      ensures db.ventes == old(db.ventes) && db.settings == old(db.settings)
      ensures db.nextVenteId == old(db.nextVenteId)
      ensures !isModalOpen && articles == db.articles
      ensures currentArticle == old(currentArticle) && formDirty == old(formDirty)
      ensures search == old(search) && showDeleteConfirm == old(showDeleteConfirm)
      ensures showCancelConfirm == old(showCancelConfirm)
    {
      if Editing(currentArticle) {
        db.UpdateArticle(Article(currentArticle.value.id, nom, prix, categorie, stock));
      } else {
        var _ := db.AddArticle(nom, prix, categorie, stock);
      }
      isModalOpen := false;
      articles := db.articles;
    }

    /** The search box's `onChange`, and its clear button with `text` empty. */
    method SetSearch(text: string)
      requires Valid()
      modifies this
      ensures Valid()
      ensures search == text
      ensures articles == old(articles) && isModalOpen == old(isModalOpen)
      ensures currentArticle == old(currentArticle) && showDeleteConfirm == old(showDeleteConfirm)
      ensures showCancelConfirm == old(showCancelConfirm) && formDirty == old(formDirty)
    {
      search := text;
    }

    /** The delete button of a row: ask before deleting article `id`. */
    method RequestDelete(id: int)
      requires Valid() && !showCancelConfirm
      modifies this
      ensures Valid()
      ensures showDeleteConfirm == Some(id)
      ensures articles == old(articles) && isModalOpen == old(isModalOpen)
      ensures currentArticle == old(currentArticle) && search == old(search)
      ensures showCancelConfirm == old(showCancelConfirm) && formDirty == old(formDirty)
    {
      showDeleteConfirm := Some(id);
    }

    /** "Oui, Supprimer": delete the article the dialog asks about, close
        the dialog and reload. */
    method ConfirmDelete(db: Database)
      requires Valid() && db.Valid() && DeleteDialogShown(showDeleteConfirm)
      modifies this, db
      ensures Valid() && db.Valid()
      ensures db.articles == Remove(old(db.articles), ArticleKey, old(showDeleteConfirm).value)
      ensures Get(db.articles, ArticleKey, old(showDeleteConfirm).value) == None
      ensures db.ventes == old(db.ventes) && db.settings == old(db.settings)
      ensures db.nextArticleId == old(db.nextArticleId) && db.nextVenteId == old(db.nextVenteId)
      ensures showDeleteConfirm == None && articles == db.articles
      ensures isModalOpen == old(isModalOpen) && currentArticle == old(currentArticle)
      ensures search == old(search) && showCancelConfirm == old(showCancelConfirm)
      ensures formDirty == old(formDirty)
    {
      db.DeleteArticle(showDeleteConfirm.value);
      showDeleteConfirm := None;
      articles := db.articles;
    }

    /** "Annuler" of the delete dialog. */
    method CancelDelete()
      requires Valid()
      modifies this
      ensures Valid()
      ensures showDeleteConfirm == None
      ensures articles == old(articles) && isModalOpen == old(isModalOpen)
      ensures currentArticle == old(currentArticle) && search == old(search)
      ensures showCancelConfirm == old(showCancelConfirm) && formDirty == old(formDirty)
    {
      showDeleteConfirm := None;
    }
  }

  /** Unsaved changes are never lost by the close button alone: after edits,
      closing leaves the modal open and asks; only "Abandonner" then closes
      it, and "Continuer" returns to the same form. */
  method CloseDirtyForm(page: InventoryPage, abandon: bool)
    requires page.Valid() && page.isModalOpen && !page.showCancelConfirm
    modifies page
    ensures page.Valid()
    ensures abandon ==> !page.isModalOpen && !page.formDirty && !page.showCancelConfirm
    ensures !abandon ==> page.isModalOpen && page.formDirty && !page.showCancelConfirm &&
                         page.currentArticle == old(page.currentArticle)
  {
    page.FormChanged();
    page.HandleCloseModal();
    assert page.isModalOpen && page.showCancelConfirm;
    if abandon {
      page.Abandon();
    } else {
      page.Continue();
    }
  }
}
