/** The rows of the `reviews` app that the API writes or looks up:
    titles, reviews and comments. Only the columns the API reads or
    writes are kept. */
module Reviews {
  import opened Wrappers

  datatype Title = Title(id: nat, name: string, year: int, description: string)

  /** A review names its title and its author by key. */
  datatype Review = Review(id: nat, title: nat, author: nat, text: string, score: int)

  /** A comment names its review and its author by key. */
  datatype Comment = Comment(id: nat, review: nat, author: nat, text: string)

  /** `get_object_or_404(Title, id=...)` */
  function FindTitle(titles: seq<Title>, id: nat): (r: Option<Title>)
    ensures r.Some? ==> r.value in titles && r.value.id == id
    ensures r.None? ==> forall t :: t in titles ==> t.id != id
  {
    if titles == [] then None
    else if titles[0].id == id then Some(titles[0])
    else FindTitle(titles[1..], id)
  }

  /** `get_object_or_404(Review, id=...)` */
  function FindReview(reviews: seq<Review>, id: nat): (r: Option<Review>)
    ensures r.Some? ==> r.value in reviews && r.value.id == id
    ensures r.None? ==> forall v :: v in reviews ==> v.id != id
  {
    if reviews == [] then None
    else if reviews[0].id == id then Some(reviews[0])
    else FindReview(reviews[1..], id)
  }

  /** Keys strictly increase along the table, so no key repeats. */
  predicate ReviewKeysAscending(rows: seq<Review>)
  {
    forall i, j :: 0 <= i < j < |rows| ==> rows[i].id < rows[j].id
  }

  predicate CommentKeysAscending(rows: seq<Comment>)
  {
    forall i, j :: 0 <= i < j < |rows| ==> rows[i].id < rows[j].id
  }

  /** `title.reviews`: the reviews of one title, in table order. */
  function ReviewsOfTitle(reviews: seq<Review>, title: nat): (r: seq<Review>)
    ensures forall v :: v in r <==> v in reviews && v.title == title
  {
    if reviews == [] then []
    else if reviews[0].title == title then [reviews[0]] + ReviewsOfTitle(reviews[1..], title)
    else ReviewsOfTitle(reviews[1..], title)
  }

  /** `review.comments`: the comments of one review, in table order. */
  function CommentsOfReview(comments: seq<Comment>, review: nat): (r: seq<Comment>)
    ensures forall c :: c in r <==> c in comments && c.review == review
  {
    if comments == [] then []
    else if comments[0].review == review then [comments[0]] + CommentsOfReview(comments[1..], review)
    else CommentsOfReview(comments[1..], review)
  }

  /** Selecting the reviews of one title keeps the table's key order. */
  lemma {:induction false} ReviewsOfTitleKeepsOrder(reviews: seq<Review>, title: nat)
    requires ReviewKeysAscending(reviews)
    ensures ReviewKeysAscending(ReviewsOfTitle(reviews, title))
  {
    if reviews != [] {
      var tail := reviews[1..];
      assert ReviewKeysAscending(tail) by {
        forall i, j | 0 <= i < j < |tail| ensures tail[i].id < tail[j].id {
          assert tail[i] == reviews[i + 1] && tail[j] == reviews[j + 1];
        }
      }
      ReviewsOfTitleKeepsOrder(tail, title);
      var rest := ReviewsOfTitle(tail, title);
      forall v | v in rest ensures reviews[0].id < v.id {
        var i :| 0 <= i < |tail| && tail[i] == v;
        assert reviews[i + 1] == v;
      }
      if reviews[0].title == title {
        var r := [reviews[0]] + rest;
        forall i, j | 0 <= i < j < |r| ensures r[i].id < r[j].id {
          if i > 0 {
            assert r[i] == rest[i - 1] && r[j] == rest[j - 1];
          } else {
            assert r[j] in rest;
          }
        }
      }
    }
  }

  /** Selecting the comments of one review keeps the table's key order. */
  lemma {:induction false} CommentsOfReviewKeepsOrder(comments: seq<Comment>, review: nat)
    requires CommentKeysAscending(comments)
    ensures CommentKeysAscending(CommentsOfReview(comments, review))
  {
    if comments != [] {
      var tail := comments[1..];
      assert CommentKeysAscending(tail) by {
        forall i, j | 0 <= i < j < |tail| ensures tail[i].id < tail[j].id {
          assert tail[i] == comments[i + 1] && tail[j] == comments[j + 1];
        }
      }
      CommentsOfReviewKeepsOrder(tail, review);
      var rest := CommentsOfReview(tail, review);
      forall c | c in rest ensures comments[0].id < c.id {
        var i :| 0 <= i < |tail| && tail[i] == c;
        assert comments[i + 1] == c;
      }
      if comments[0].review == review {
        var r := [comments[0]] + rest;
        forall i, j | 0 <= i < j < |r| ensures r[i].id < r[j].id {
          if i > 0 {
            assert r[i] == rest[i - 1] && r[j] == rest[j - 1];
          } else {
            assert r[j] in rest;
          }
        }
      }
    }
  }

  /** `Review.objects.filter(author=..., title=...).exists()`, as a scan of the rows. */
  function HasReview(rows: seq<Review>, author: nat, title: nat): (has: bool)
    ensures has <==> exists r :: r in rows && r.author == author && r.title == title
  {
    if rows == [] then false
    else (rows[0].author == author && rows[0].title == title) || HasReview(rows[1..], author, title)
  }

  /** No two reviews share both author and title. */
  predicate OneReviewPerAuthorAndTitle(rows: seq<Review>)
  {
    forall i, j :: 0 <= i < j < |rows| ==> rows[i].author != rows[j].author || rows[i].title != rows[j].title
  }

  /** The reviews written by `author` about `title`, in table order. */
  function ReviewsBy(rows: seq<Review>, author: nat, title: nat): (r: seq<Review>)
    ensures forall v :: v in r <==> v in rows && v.author == author && v.title == title
    ensures r != [] <==> HasReview(rows, author, title)
  {
    if rows == [] then []
    else if rows[0].author == author && rows[0].title == title then [rows[0]] + ReviewsBy(rows[1..], author, title)
    else ReviewsBy(rows[1..], author, title)
  }

  /** Under the invariant, an author has at most one review of a title. */
  lemma {:induction false} AtMostOneReview(rows: seq<Review>, author: nat, title: nat)
    requires OneReviewPerAuthorAndTitle(rows)
    ensures |ReviewsBy(rows, author, title)| <= 1
  {
    if rows != [] {
      var tail := rows[1..];
      assert OneReviewPerAuthorAndTitle(tail) by {
        forall i, j | 0 <= i < j < |tail|
          ensures tail[i].author != tail[j].author || tail[i].title != tail[j].title
        {
          assert tail[i] == rows[i + 1] && tail[j] == rows[j + 1];
        }
      }
      AtMostOneReview(tail, author, title);
      if rows[0].author == author && rows[0].title == title {
        assert !HasReview(tail, author, title);
      }
    }
  }

  /** Adding a review for a pair that has none keeps the invariant. */
  lemma AppendKeepsOneReview(rows: seq<Review>, review: Review)
    requires OneReviewPerAuthorAndTitle(rows)
    requires !HasReview(rows, review.author, review.title)
    ensures OneReviewPerAuthorAndTitle(rows + [review])
  {
  }

  /** The review table. */
  class ReviewTable {
    var rows: seq<Review>
    var nextId: nat

    /** Keys are unique and ascend in insertion order, below the next key. */
    ghost predicate Valid()
      reads this
    {
      ReviewKeysAscending(rows) && forall r :: r in rows ==> r.id < nextId
    }

    constructor ()
      ensures Valid() && rows == [] && nextId == 1
    {
      rows := [];
      nextId := 1;
    }

    /** `Review.objects.create(...)`: appends one row with a fresh key. */
    method Insert(title: nat, author: nat, text: string, score: int) returns (review: Review)
      requires Valid()
      modifies this
      ensures Valid()
      ensures review == Review(old(nextId), title, author, text, score)
      ensures rows == old(rows) + [review] && nextId == old(nextId) + 1
    {
      review := Review(nextId, title, author, text, score);
      forall i | 0 <= i < |rows| ensures rows[i].id < review.id {
        assert rows[i] in rows;
      }
      rows := rows + [review];
      nextId := nextId + 1;
    }
  }

  /** The comment table. */
  class CommentTable {
    var rows: seq<Comment>
    var nextId: nat

    /** Keys are unique and ascend in insertion order, below the next key. */
    ghost predicate Valid()
      reads this
    {
      CommentKeysAscending(rows) && forall c :: c in rows ==> c.id < nextId
    }

    constructor ()
      ensures Valid() && rows == [] && nextId == 1
    {
      rows := [];
      nextId := 1;
    }

    /** `Comment.objects.create(...)`: appends one row with a fresh key. */
    method Insert(review: nat, author: nat, text: string) returns (comment: Comment)
      requires Valid()
      modifies this
      ensures Valid()
      ensures comment == Comment(old(nextId), review, author, text)
      ensures rows == old(rows) + [comment] && nextId == old(nextId) + 1
    {
      comment := Comment(nextId, review, author, text);
      forall i | 0 <= i < |rows| ensures rows[i].id < comment.id {
        assert rows[i] in rows;
      }
      rows := rows + [comment];
      nextId := nextId + 1;
    }
  }
}
