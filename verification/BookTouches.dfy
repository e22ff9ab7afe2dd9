// The touch a reader of the fast book passes on.
module BookTouches {
  import opened Types
  import opened BookSpec
  import opened BookViews
  import opened FeedSpec
  import opened OrderMaps
  import opened OrderBooks

  method TouchOf(book: OrderBook) returns (t: BookTouch)
    requires book.Valid()
    ensures TouchIs(t, book.Book())
  {
    hide OrderBook.Valid, OrderBook.Book, OrderMap.Valid, IsBest;
    ghost var b := book.Book();
    assert LadderOf(b, Bid) == b.bids && LadderOf(b, Ask) == b.asks;
    var hasBid := book.HasBest(Bid);
    var hasAsk := book.HasBest(Ask);
    var bid, ask := 0, 0;
    if hasBid {
      bid := book.Best(Bid);
    }
    if hasAsk {
      ask := book.Best(Ask);
    }
    t := BookTouch(hasBid, hasAsk, bid, ask);
  }
}
