/**
 * The add / edit book form: its field values, the per-field error messages, the validator, the
 * input handlers, the prefill from an existing book in edit mode and the random cover picker.
 */
module BookForm {
  import opened Wrappers
  import Text
  import opened AppContext

  datatype Field = Title | Author | Description | Genre | Year | CoverImage

  /** The year input holds `parseInt(value) || ''`: a number, or '' when the text is not one (or is 0). */
  datatype YearValue = YearNumber(n: int) | Blank

  /** The number the validator compares: '' compares as 0. */
  function YearAsNumber(y: YearValue): int {
    if y.YearNumber? then y.n else 0
  }

  /** The year input's handler argument, from `parseInt` (None for `NaN`). */
  function YearInput(parsed: Option<int>): (y: YearValue)
    ensures y.Blank? <==> parsed.None? || parsed.value == 0
    ensures y.YearNumber? ==> y.n == parsed.value
  {
    if parsed.Some? && parsed.value != 0 then YearNumber(parsed.value) else Blank
  }

  datatype Mode = Add | Edit

  const TitleRequired := "Title is required"
  const AuthorRequired := "Author is required"
  const DescriptionRequired := "Description is required"
  const GenreRequired := "Genre is required"
  const YearInvalid := "Please enter a valid year"
  const CoverRequired := "Cover image URL is required"

  /** The seven stock covers `generateRandomCoverImage` draws from. */
  const CoverUrls: seq<string> := [
    "https://images.unsplash.com/photo-1543002588-bfa74002ed7e?w=300&h=400&fit=crop",
    "https://images.unsplash.com/photo-1544947950-fa07a98d237f?w=300&h=400&fit=crop",
    "https://images.unsplash.com/photo-1519904981063-b0cf448d479e?w=300&h=400&fit=crop",
    "https://images.unsplash.com/photo-1481627834876-b7833e8f5570?w=300&h=400&fit=crop",
    "https://images.unsplash.com/photo-1589998059171-988d887df646?w=300&h=400&fit=crop",
    "https://images.unsplash.com/photo-1526243741027-444d633d7365?w=300&h=400&fit=crop",
    "https://images.unsplash.com/photo-1507003211169-0a1dd7228f2d?w=300&h=400&fit=crop"
  ]

  /** `bookImageUrls[Math.floor(Math.random() * bookImageUrls.length)]` for a draw `x` in [0, 1). */
  function RandomCoverUrl(x: real): (url: string)
    requires 0.0 <= x < 1.0
    ensures url in CoverUrls
  {
    var k := (x * (|CoverUrls| as real)).Floor;
    assert 0 <= k < |CoverUrls| by {
      assert 0.0 <= x * 7.0 < 7.0;
    }
    CoverUrls[k]
  }

  /** `existingBook`: a non-empty `bookId` looked up in the store's books. */
  function ExistingBook(books: seq<Book>, bookId: Option<string>): (r: Option<Book>)
    ensures r.Some? ==> bookId.Some? && bookId.value != "" && r.value.id == bookId.value && r.value in books
    ensures bookId.Some? && bookId.value != "" && (exists b :: b in books && b.id == bookId.value) ==> r.Some?
    ensures r.Some? ==>
      exists i :: 0 <= i < |books| && books[i] == r.value && forall j :: 0 <= j < i ==> books[j].id != bookId.value
  {
    if bookId.Some? && bookId.value != "" then FindBook(books, bookId.value) else None
  }

  class BookFormState {
    var title: string
    var author: string
    var description: string
    var genre: string
    var year: YearValue
    var coverImage: string
    var coverImagePreview: string
    var errors: map<Field, string>

    /** An empty form whose year is the current year. */
    constructor (currentYear: int)
      ensures title == "" && author == "" && description == "" && genre == "" && coverImage == ""
      ensures year == YearNumber(currentYear) && coverImagePreview == "" && errors == map[]
    {
      title := "";
      author := "";
      description := "";
      genre := "";
      year := YearNumber(currentYear);
      coverImage := "";
      coverImagePreview := "";
      errors := map[];
    }

    /** `if (errors[field]) setErrors({ ...errors, [field]: '' })`: only a recorded, non-empty message is blanked. */
    method ClearError(field: Field)
      modifies this`errors
      ensures errors == if field in old(errors) && old(errors)[field] != "" then old(errors)[field := ""] else old(errors)
    {
      if field in errors && errors[field] != "" {
        errors := errors[field := ""];
      }
    }

    /** `handleInputChange` for a text field or the genre select: that field changes, and its error is blanked. */
    method HandleInputChange(field: Field, value: string)
      requires field != Year
      modifies this`title, this`author, this`description, this`genre, this`coverImage, this`errors
      ensures title == (if field == Title then value else old(title))
      ensures author == (if field == Author then value else old(author))
      ensures description == (if field == Description then value else old(description))
      ensures genre == (if field == Genre then value else old(genre))
      ensures coverImage == (if field == CoverImage then value else old(coverImage))
      ensures errors == if field in old(errors) && old(errors)[field] != "" then old(errors)[field := ""] else old(errors)
    {
      match field {
        case Title => title := value;
        case Author => author := value;
        case Description => description := value;
        case Genre => genre := value;
        case CoverImage => coverImage := value;
      }
      ClearError(field);
    }

    /** `handleInputChange('year', parseInt(value) || '')`. */
    method HandleYearChange(parsed: Option<int>)
      modifies this`year, this`errors
      ensures year == YearInput(parsed)
      ensures errors == if Year in old(errors) && old(errors)[Year] != "" then old(errors)[Year := ""] else old(errors)
    {
      year := YearInput(parsed);
      ClearError(Year);
    }

    /** `handleImageUrlChange`: the cover field and the preview both become the URL. */
    method HandleImageUrlChange(url: string)
      modifies this`coverImage, this`coverImagePreview
      ensures coverImage == url && coverImagePreview == url
    {
      coverImage := url;
      coverImagePreview := url;
    }

    /** `generateRandomCoverImage` for the draw `x` of `Math.random()`. */
    method GenerateRandomCoverImage(x: real)
      requires 0.0 <= x < 1.0
      modifies this`coverImage, this`coverImagePreview
      ensures coverImage == coverImagePreview && coverImage in CoverUrls
    {
      HandleImageUrlChange(RandomCoverUrl(x));
    }

    /** The edit-mode effect: with an existing book the six fields and the preview are copied from it. */
    method Prefill(mode: Mode, existing: Option<Book>)
      modifies this`title, this`author, this`description, this`genre, this`year, this`coverImage, this`coverImagePreview
      ensures mode == Edit && existing.Some? ==>
        var b := existing.value;
        title == b.title && author == b.author && description == b.description && genre == b.genre
        && year == YearNumber(b.year) && coverImage == b.coverImage && coverImagePreview == b.coverImage
      ensures !(mode == Edit && existing.Some?) ==>
        title == old(title) && author == old(author) && description == old(description) && genre == old(genre)
        && year == old(year) && coverImage == old(coverImage) && coverImagePreview == old(coverImagePreview)
    {
      if mode == Edit && existing.Some? {
        var b := existing.value;
        title := b.title;
        author := b.author;
        description := b.description;
        genre := b.genre;
        year := YearNumber(b.year);
        coverImage := b.coverImage;
        coverImagePreview := b.coverImage;
      }
    }

    /**
     * `validateForm`: the error map is rebuilt from nothing, one check at a time, and the form
     * is valid exactly when it comes out empty. `currentYear` stands for `getFullYear()`.
     */
    method ValidateForm(currentYear: int) returns (ok: bool)
      modifies this`errors
      ensures Title in errors <==> Text.IsBlank(title)
      ensures Author in errors <==> Text.IsBlank(author)
      ensures Description in errors <==> Text.IsBlank(description)
      ensures Genre in errors <==> genre == ""
      ensures Year in errors <==> !YearAccepted(year, currentYear)
      ensures CoverImage in errors <==> Text.IsBlank(coverImage)
      ensures forall f :: f in errors ==> errors[f] == Message(f)
      ensures ok <==> errors == map[]
    {
      var failed := BlankFields(title, author, description, coverImage);
      if genre == "" {
        failed := failed + {Genre};
      }
      if !YearAccepted(year, currentYear) {
        failed := failed + {Year};
      }
      errors := ErrorsFor(failed);
      ok := failed == {};
    }
  }

  /** The four "required" checks on trimmed text: the fields among them that are blank. */
  method BlankFields(title: string, author: string, description: string, coverImage: string)
    returns (failed: set<Field>)
    ensures Title in failed <==> Text.IsBlank(title)
    ensures Author in failed <==> Text.IsBlank(author)
    ensures Description in failed <==> Text.IsBlank(description)
    ensures CoverImage in failed <==> Text.IsBlank(coverImage)
    ensures Genre !in failed && Year !in failed
  {
    failed := {};
    var blankTitle := Text.BlankAfterTrim(title);
    if blankTitle {
      failed := failed + {Title};
    }
    var blankAuthor := Text.BlankAfterTrim(author);
    if blankAuthor {
      failed := failed + {Author};
    }
    var blankDescription := Text.BlankAfterTrim(description);
    if blankDescription {
      failed := failed + {Description};
    }
    var blankCover := Text.BlankAfterTrim(coverImage);
    if blankCover {
      failed := failed + {CoverImage};
    }
  }

  /** The error map for a set of failed checks: each failed field with its message. */
  function ErrorsFor(failed: set<Field>): (m: map<Field, string>)
    ensures forall f :: f in m <==> f in failed
    ensures forall f :: f in m ==> m[f] == Message(f)
    ensures m == map[] <==> failed == {}
  {
    map f | f in failed :: Message(f)
  }

  /** The message each check records. */
  function Message(f: Field): string {
    match f
    case Title => TitleRequired
    case Author => AuthorRequired
    case Description => DescriptionRequired
    case Genre => GenreRequired
    case Year => YearInvalid
    case CoverImage => CoverRequired
  }

  /** The year check `year < 1000 || year > currentYear + 10`, negated. */
  predicate YearAccepted(y: YearValue, currentYear: int) {
    1000 <= YearAsNumber(y) <= currentYear + 10
  }

  /**
   * What the year input lets through: the typed text passes exactly when `parseInt` reads a
   * number from 1000 to ten years ahead; text that is not a number, and 0, never pass.
   */
  lemma YearInputAccepted(parsed: Option<int>, currentYear: int)
    ensures YearAccepted(YearInput(parsed), currentYear) <==>
      parsed.Some? && 1000 <= parsed.value <= currentYear + 10
  {
  }
}
