/**
 The accounting-category settings page: the edit form and its conversions (keywords as one
 comma-separated text, `isActive` as the strings 'true'/'false'), saving and deleting with their
 outcomes, the parent choices and the keyword chips.
 */
module Categories {
  import opened Wrappers
  import opened Text
  import opened Responses
  import Seqs

  datatype Category = Category(
    id: string, code: string, name: string, description: Option<string>, parentId: Option<string>,
    isActive: bool, keywords: seq<string>)

  /** The dialog's form: every field is text. */
  datatype Form = Form(code: string, name: string, description: string, parentId: string, isActive: string,
                       keywords: string)

  /** What a save sends. */
  datatype CategoryData = CategoryData(code: string, name: string, description: string, parentId: string,
                                       isActive: bool, keywords: seq<string>)

  /** `resetForm`'s defaults. */
  const EmptyForm := Form("", "", "", "", "true", "")

  const KeywordSeparator := ", "

  /** `isActive ? 'true' : 'false'`. */
  function ActiveText(b: bool): string {
    if b then "true" else "false"
  }

  /** `isActive === 'true'`. */
  predicate ParseActive(s: string) {
    s == "true"
  }

  /** The select's two values survive the round trip in both directions. */
  lemma ActiveRoundTrip(b: bool, s: string)
    ensures ParseActive(ActiveText(b)) == b
    ensures s == "true" || s == "false" ==> ActiveText(ParseActive(s)) == s
  {
  }

  predicate NonEmpty(k: string) { k != [] }

  /** `keywords.split(',').map(k => k.trim()).filter(k => k)`. */
  function ParseKeywords(text: string): (ks: seq<string>)
    ensures WellFormedKeywords(ks)
  {
    var pieces := Split(text, ',');
    KeptPiecesWellFormed(pieces);
    Seqs.Filter(Seqs.Map(pieces, Trim), NonEmpty)
  }

  /** The non-empty trimmed pieces of a comma split are well-formed keywords. */
  lemma KeptPiecesWellFormed(pieces: seq<string>)
    requires forall i :: 0 <= i < |pieces| ==> ',' !in pieces[i]
    ensures WellFormedKeywords(Seqs.Filter(Seqs.Map(pieces, Trim), NonEmpty))
  {
    var trimmed := Seqs.Map(pieces, Trim);
    TrimmedPieces(pieces, ',');
    var ks := Seqs.Filter(trimmed, NonEmpty);
    forall i | 0 <= i < |ks| ensures ks[i] != [] && IsTrimmed(ks[i]) && ',' !in ks[i] {
      assert ks[i] in ks;
    }
  }

  /** Trimmed pieces are trimmed, and trimming brings in no separator. */
  lemma TrimmedPieces(pieces: seq<string>, sep: char)
    requires forall i :: 0 <= i < |pieces| ==> sep !in pieces[i]
    ensures forall x :: x in Seqs.Map(pieces, Trim) ==> IsTrimmed(x) && sep !in x
  {
    var trimmed := Seqs.Map(pieces, Trim);
    forall x | x in trimmed ensures IsTrimmed(x) && sep !in x {
      var i :| 0 <= i < |trimmed| && trimmed[i] == x;
      TrimKeeps(pieces[i], sep);
    }
  }

  /** A character absent from a string is absent from its trim. */
  lemma TrimKeeps(s: string, c: char)
    requires c !in s
    ensures c !in Trim(s)
  {
  }

  /** `keywords.join(', ')`. */
  function FormatKeywords(ks: seq<string>): (text: string)
    ensures ks == [] ==> text == []
    ensures |ks| == 1 ==> text == ks[0]
    ensures |ks| >= 2 ==> |text| > |ks[0]| + 1 && text[..|ks[0]| + 2] == ks[0] + KeywordSeparator
  {
    Join(ks, KeywordSeparator)
  }

  /** Keywords the form can carry unchanged: non-empty, without edge whitespace, without commas. */
  predicate WellFormedKeywords(ks: seq<string>) {
    forall i :: 0 <= i < |ks| ==> ks[i] != [] && IsTrimmed(ks[i]) && ',' !in ks[i]
  }

  /** Saving an unchanged edit form gives back the keywords it was filled with, whenever they are
      well formed (and only then, since every parse result is). */
  lemma KeywordsRoundTrip(ks: seq<string>)
    ensures WellFormedKeywords(ks) ==> ParseKeywords(FormatKeywords(ks)) == ks
    ensures WellFormedKeywords(ParseKeywords(FormatKeywords(ks)))
  {
    if WellFormedKeywords(ks) {
      if |ks| == 0 {
        assert Split([], ',') == [[]];
        assert Seqs.Map([[]], Trim) == [[]];
        assert Seqs.Filter([[]], NonEmpty) == Seqs.Filter([], NonEmpty);
      } else {
        NonEmptyRoundTrip(ks);
      }
    }
  }

  lemma NonEmptyRoundTrip(ks: seq<string>)
    requires WellFormedKeywords(ks) && |ks| >= 1
    ensures ParseKeywords(FormatKeywords(ks)) == ks
  {
    var padded := [ks[0]] + Padded(ks[1..]);
    JoinPadded(ks);
    PaddedHasNoComma(ks);
    SplitJoin(padded, ',');
    assert Split(FormatKeywords(ks), ',') == padded;
    TrimPadded(ks);
    Seqs.FilterKeepsAll(ks, NonEmpty);
  }

  /** No padded piece holds a comma. */
  lemma PaddedHasNoComma(ks: seq<string>)
    requires WellFormedKeywords(ks) && |ks| >= 1
    ensures forall i :: 0 <= i < |ks| ==> ',' !in ([ks[0]] + Padded(ks[1..]))[i]
  {
    var padded := [ks[0]] + Padded(ks[1..]);
    forall i | 0 <= i < |ks| ensures ',' !in padded[i] {
      if i > 0 { assert padded[i] == " " + ks[i]; }
    }
  }

  /** Trimming the padded pieces gives the keywords back. */
  lemma TrimPadded(ks: seq<string>)
    requires WellFormedKeywords(ks) && |ks| >= 1
    ensures Seqs.Map([ks[0]] + Padded(ks[1..]), Trim) == ks
  {
    var padded := [ks[0]] + Padded(ks[1..]);
    var trimmed := Seqs.Map(padded, Trim);
    forall i | 0 <= i < |ks| ensures trimmed[i] == ks[i] {
      PaddedPiece(ks, i);
    }
  }

  /** The `i`-th padded piece trims to the `i`-th keyword. */
  lemma PaddedPiece(ks: seq<string>, i: nat)
    requires WellFormedKeywords(ks) && i < |ks|
    ensures Trim(([ks[0]] + Padded(ks[1..]))[i]) == ks[i]
  {
    var k := ks[i];
    var piece := ([ks[0]] + Padded(ks[1..]))[i];
    assert piece == (if i == 0 then k else " " + k) by {
      if i > 0 {
        var rest := Padded(ks[1..]);
        assert piece == rest[i - 1];
        assert ks[1..][i - 1] == k;
      }
    }
    TrimPiece(k);
  }

  /** A trimmed keyword is its own trim, with or without the space in front. */
  lemma TrimPiece(k: string)
    requires IsTrimmed(k)
    ensures Trim(k) == k && Trim(" " + k) == k
  {
    TrimTrimmed(k);
    TrimLeadingWhitespace(' ', k);
    assert " " + k == [' '] + k;
  }

  /** Each keyword after the first with the space the separator leaves in front of it. */
  function Padded(ks: seq<string>): (ps: seq<string>)
    ensures |ps| == |ks|
    ensures forall i :: 0 <= i < |ks| ==> ps[i] == " " + ks[i]
  {
    seq(|ks|, i requires 0 <= i < |ks| => " " + ks[i])
  }

  /** Joining with ", " is joining with "," after padding every keyword but the first. */
  lemma {:induction false} JoinPadded(ks: seq<string>)
    requires |ks| >= 1
    ensures Join(ks, KeywordSeparator) == Join([ks[0]] + Padded(ks[1..]), ",")
  {
    if |ks| > 1 {
      var rest := ks[1..];
      JoinPadded(rest);
      assert rest[1..] == ks[2..];
      assert Padded(rest) == [" " + rest[0]] + Padded(rest[1..]);
      JoinFirst(" ", rest[0], Padded(rest[1..]), ",");
      assert ([ks[0]] + Padded(rest))[1..] == Padded(rest);
    }
  }

  /** Prefixing the first piece prefixes the joined text. */
  lemma JoinFirst(pre: string, x: string, rest: seq<string>, sep: string)
    ensures Join([pre + x] + rest, sep) == pre + Join([x] + rest, sep)
  {
    assert ([pre + x] + rest)[1..] == rest && ([x] + rest)[1..] == rest;
  }

  /** `handleEditCategory`'s form: an absent description or parent becomes the empty string. */
  function FillForm(c: Category): (f: Form)
    ensures f.code == c.code && f.name == c.name
    ensures f.description == c.description.GetOr("") && f.parentId == c.parentId.GetOr("")
    ensures ParseActive(f.isActive) == c.isActive
    ensures WellFormedKeywords(c.keywords) ==> ParseKeywords(f.keywords) == c.keywords
  {
    KeywordsRoundTrip(c.keywords);
    Form(c.code, c.name, c.description.GetOr(""), c.parentId.GetOr(""), ActiveText(c.isActive),
         FormatKeywords(c.keywords))
  }

  /** The data `handleSaveCategory` sends for a form. */
  function SaveData(f: Form): (d: CategoryData)
    ensures d.code == f.code && d.name == f.name && d.description == f.description && d.parentId == f.parentId
    ensures d.isActive <==> f.isActive == "true"
    ensures WellFormedKeywords(d.keywords)
  {
    CategoryData(f.code, f.name, f.description, f.parentId, ParseActive(f.isActive), ParseKeywords(f.keywords))
  }

  /** Saving an unchanged edit form sends the category's own values back. */
  lemma EditSaveRoundTrip(c: Category)
    requires WellFormedKeywords(c.keywords)
    ensures SaveData(FillForm(c)) ==
      CategoryData(c.code, c.name, c.description.GetOr(""), c.parentId.GetOr(""), c.isActive, c.keywords)
  {
  }

  /** The save button is enabled iff both code and name are filled in. */
  predicate SaveEnabled(f: Form) {
    f.code != [] && f.name != []
  }

  /** The page state. */
  datatype Page = Page(
    categories: seq<Category>, error: Option<string>, dialogOpen: bool, editing: Option<Category>, form: Form,
    deleteDialogOpen: bool, selected: Option<Category>)

  /** `handleAddCategory`: a fresh form, nothing being edited, the dialog open. */
  function StartAdd(p: Page): (q: Page)
    ensures q.form == EmptyForm && q.editing.None? && q.dialogOpen
    ensures q.categories == p.categories && q.error == p.error
  {
    p.(editing := None, form := EmptyForm, dialogOpen := true)
  }

  /** `handleEditCategory`: the category's values in the form, the dialog open. */
  function StartEdit(p: Page, c: Category): (q: Page)
    ensures q.form == FillForm(c) && q.editing == Some(c) && q.dialogOpen
    ensures q.categories == p.categories && q.error == p.error
  {
    p.(editing := Some(c), form := FillForm(c), dialogOpen := true)
  }

  /** A new category cannot be saved until code and name are typed; an edit can be saved at once when
      the category has both; clearing either disables the button again. */
  lemma SaveButton(p: Page, c: Category, f: Form, field: Field)
    ensures !SaveEnabled(StartAdd(p).form)
    ensures SaveEnabled(StartEdit(p, c).form) <==> c.code != [] && c.name != []
    ensures field == Code || field == Name ==> !SaveEnabled(ChangeField(f, field, ""))
    ensures field != Code && field != Name ==> SaveEnabled(ChangeField(f, field, "")) == SaveEnabled(f)
  {
    assert Get(ChangeField(f, field, ""), Code) == ChangeField(f, field, "").code;
    assert Get(ChangeField(f, field, ""), Name) == ChangeField(f, field, "").name;
  }

  /** The form's fields, by the input `name` that `handleInputChange` and `handleSelectChange` use. */
  datatype Field = Code | Name | Description | ParentId | IsActive | Keywords

  /** Typing into one field sets that field and leaves the others. */
  function ChangeField(f: Form, field: Field, value: string): (g: Form)
    ensures Get(g, field) == value
    ensures forall other :: other != field ==> Get(g, other) == Get(f, other)
  {
    match field
    case Code => f.(code := value)
    case Name => f.(name := value)
    case Description => f.(description := value)
    case ParentId => f.(parentId := value)
    case IsActive => f.(isActive := value)
    case Keywords => f.(keywords := value)
  }

  function Get(f: Form, field: Field): string {
    match field
    case Code => f.code
    case Name => f.name
    case Description => f.description
    case ParentId => f.parentId
    case IsActive => f.isActive
    case Keywords => f.keywords
  }

  /** Which call a save makes: update of the category being edited, or create. */
  datatype SaveCall = Update(id: string, data: CategoryData) | Create(data: CategoryData)

  function SaveCallOf(p: Page): (call: SaveCall)
    ensures call.data == SaveData(p.form)
    ensures call.Update? <==> p.editing.Some?
    ensures call.Update? ==> call.id == p.editing.value.id
  {
    if p.editing.Some? then Update(p.editing.value.id, SaveData(p.form)) else Create(SaveData(p.form))
  }

  const SaveFailed := "儲存失敗"
  const SaveThrew := "儲存類別時發生錯誤"
  const DeleteFailed := "刪除失敗"
  const DeleteThrew := "刪除類別時發生錯誤"

  /** `loadCategories`: the server's list on success, the sample list otherwise. */
  function Load(r: Response<seq<Category>>): (cs: seq<Category>)
    ensures r.Ok? ==> cs == r.data
    ensures !r.Ok? ==> cs == MockCategories
  {
    match r
    case Ok(data) => data
    case _ => MockCategories
  }

  /** `handleSaveCategory` given the save's response and the reload's: success closes the dialog,
      reloads and clears the error; a refusal keeps the dialog open with the server's message or
      '儲存失敗'; a throw keeps it open with '儲存類別時發生錯誤'. */
  function Save(p: Page, r: Response<()>, reload: Response<seq<Category>>): (q: Page)
    ensures r.Ok? ==> !q.dialogOpen && q.error.None? && q.categories == Load(reload)
    ensures r.Refused? ==> q == p.(error := Some(MessageOr(r.message, SaveFailed)))
    ensures r.Threw? ==> q == p.(error := Some(SaveThrew))
    ensures q.form == p.form && q.editing == p.editing
    ensures q.deleteDialogOpen == p.deleteDialogOpen && q.selected == p.selected
  {
    match r
    case Ok(_) => p.(dialogOpen := false, categories := Load(reload), error := None)
    case Refused(m) => p.(error := Some(MessageOr(m, SaveFailed)))
    case Threw => p.(error := Some(SaveThrew))
  }

  /** `confirmDelete` given the delete's response and the reload's: nothing without a selection;
      success closes the dialog, clears the selection and the error and reloads; a refusal or throw
      sets the matching error and changes nothing else. */
  function ConfirmDelete(p: Page, r: Response<()>, reload: Response<seq<Category>>): (q: Page)
    ensures p.selected.None? ==> q == p
    ensures p.selected.Some? && r.Ok? ==>
      q == p.(deleteDialogOpen := false, selected := None, categories := Load(reload), error := None)
    ensures p.selected.Some? && r.Refused? ==> q == p.(error := Some(MessageOr(r.message, DeleteFailed)))
    ensures p.selected.Some? && r.Threw? ==> q == p.(error := Some(DeleteThrew))
  {
    if p.selected.None? then p
    else match r
      case Ok(_) => p.(deleteDialogOpen := false, selected := None, categories := Load(reload), error := None)
      case Refused(m) => p.(error := Some(MessageOr(m, DeleteFailed)))
      case Threw => p.(error := Some(DeleteThrew))
  }

  /** Every failure leaves a non-empty error on the page. */
  lemma FailuresReport(p: Page, r: Response<()>, reload: Response<seq<Category>>)
    ensures !r.Ok? ==> Save(p, r, reload).error.Some? && Save(p, r, reload).error.value != []
    ensures p.selected.Some? && !r.Ok? ==>
      ConfirmDelete(p, r, reload).error.Some? && ConfirmDelete(p, r, reload).error.value != []
  {
  }

  /** The parent choices: every category except the one being edited, in order. */
  function ParentOptions(categories: seq<Category>, editing: Option<Category>): (opts: seq<Category>)
    ensures forall c :: c in opts <==> c in categories && (editing.None? || c.id != editing.value.id)
    ensures editing.None? ==> opts == categories
  {
    var keep := (c: Category) => editing.None? || c.id != editing.value.id;
    assert editing.None? ==> Seqs.Filter(categories, keep) == categories by {
      if editing.None? {
        Seqs.FilterKeepsAll(categories, keep);
      }
    }
    Seqs.Filter(categories, keep)
  }

  /** The keyword chips: the first three keywords and, when there are more, a count of the rest. */
  function KeywordChips(ks: seq<string>): (chips: (seq<string>, Option<nat>))
    ensures |chips.0| == if |ks| < 3 then |ks| else 3
    ensures chips.0 == ks[..|chips.0|]
    ensures chips.1.Some? <==> |ks| > 3
    ensures chips.1.Some? ==> |chips.0| + chips.1.value == |ks|
  {
    var shown := if |ks| <= 3 then ks else ks[..3];
    (shown, if |ks| > 3 then Some(|ks| - 3) else None)
  }

  /** `StatusChip`: label and colour. */
  function StatusChip(isActive: bool): (chip: (string, string))
    ensures isActive <==> chip.1 == "success"
    ensures isActive <==> chip.0 == "啟用"
    ensures !isActive ==> chip == ("停用", "default")
  {
    if isActive then ("啟用", "success") else ("停用", "default")
  }

  function Sample(id: string, code: string, name: string, description: string, isActive: bool,
                  keywords: seq<string>): Category {
    Category(id, code, name, Some(description), None, isActive, keywords)
  }

  /** `getMockCategories`. */
  const MockCategories: seq<Category> := [
    Sample("1", "5001", "辦公用品", "日常辦公所需用品", true, ["紙張", "文具", "印表機", "碳粉"]),
    Sample("2", "5002", "差旅費", "員工出差相關費用", true, ["交通", "住宿", "機票", "高鐵", "油費"]),
    Sample("3", "5003", "餐飲費", "員工餐飲和招待費用", true, ["餐廳", "便當", "咖啡", "招待"]),
    Sample("4", "5004", "設備費", "公司設備採購和維護", true, ["電腦", "設備", "維修", "軟體"]),
    Sample("5", "5005", "通訊費", "電話、網路等通訊費用", true, ["電話費", "網路費", "手機"]),
    Sample("6", "5006", "租金", "辦公室租金和相關費用", false, ["租金", "水電", "管理費"])
  ]
}
