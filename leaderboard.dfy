/** The leaderboard: project the user list to (address, points), sort it
    by points, highest first, keeping server order among equal points
    (`Array.prototype.sort` is stable, ECMA-262 2023 edition, section
    23.1.3.30), and number the rows from 1. */
module Leaderboard {
  import opened Common
  import opened LedgerStore

  datatype User = User(address: string, points: int)

  datatype Entry = Entry(rank: int, username: string, score: int)

  /** The answer to `GET /users` once its body is read. */
  datatype UsersReply = UsersThrown | UsersAnswered(success: bool, data: Option<seq<Account>>)

  /** `usersData.data.map(user => ({address, points}))`. */
  function Project(accounts: seq<Account>): (users: seq<User>)
    ensures |users| == |accounts|
    ensures forall i :: 0 <= i < |users| ==> users[i] == User(accounts[i].address, accounts[i].points)
  {
    if accounts == [] then [] else [User(accounts[0].address, accounts[0].points)] + Project(accounts[1..])
  }

  /** Points never increase from one row to any later row. */
  ghost predicate Descending(users: seq<User>)
  {
    forall i, j :: 0 <= i < j < |users| ==> users[i].points >= users[j].points
  }

  /** The users with exactly `p` points, in their order. */
  function WithPoints(users: seq<User>, p: int): seq<User>
  {
    if users == [] then []
    else (if users[0].points == p then [users[0]] else []) + WithPoints(users[1..], p)
  }

  /** Put `u` into a list in front of the first user who does not have
      more points; `u` comes before the list's users of equal points
      because it came before them in the server's order. */
  function Insert(u: User, sorted: seq<User>): seq<User>
  {
    if sorted == [] then [u]
    else if sorted[0].points <= u.points then [u] + sorted
    else [sorted[0]] + Insert(u, sorted[1..])
  }

  /** The comparator sort `(a, b) => b.points - a.points`. */
  function SortByPoints(users: seq<User>): seq<User>
  {
    if users == [] then [] else Insert(users[0], SortByPoints(users[1..]))
  }

  lemma {:induction false} InsertKeepsOrder(u: User, sorted: seq<User>)
    requires Descending(sorted)
    ensures Descending(Insert(u, sorted))
    ensures |Insert(u, sorted)| == |sorted| + 1
    ensures forall i :: 0 <= i < |Insert(u, sorted)| ==>
      Insert(u, sorted)[i] == u || Insert(u, sorted)[i] in sorted
  {
    if sorted != [] && sorted[0].points > u.points {
      InsertKeepsOrder(u, sorted[1..]);
      var rest := Insert(u, sorted[1..]);
      assert forall i :: 0 <= i < |rest| ==> rest[i].points <= sorted[0].points by {
        forall i | 0 <= i < |rest|
          ensures rest[i].points <= sorted[0].points
        {
          if rest[i] != u {
            var k :| 0 <= k < |sorted[1..]| && sorted[1..][k] == rest[i];
            assert sorted[k + 1] == rest[i];
          }
        }
      }
      assert Insert(u, sorted) == [sorted[0]] + rest;
    }
  }

  lemma {:induction false} InsertPermutes(u: User, sorted: seq<User>)
    ensures multiset(Insert(u, sorted)) == multiset(sorted) + multiset{u}
  {
    if sorted != [] && sorted[0].points > u.points {
      InsertPermutes(u, sorted[1..]);
      assert sorted == [sorted[0]] + sorted[1..];
    }
  }

  /** Inserting `u` adds it in front of the users of its own points and
      leaves every other points group as it was. */
  lemma {:induction false} InsertStable(u: User, sorted: seq<User>, p: int)
    ensures WithPoints(Insert(u, sorted), p)
         == (if u.points == p then [u] else []) + WithPoints(sorted, p)
  {
    if sorted == [] {
      assert Insert(u, sorted) == [u];
      assert WithPoints([u], p) == (if u.points == p then [u] else []) + WithPoints([u][1..], p);
    } else if sorted[0].points <= u.points {
      assert Insert(u, sorted) == [u] + sorted;
      assert ([u] + sorted)[1..] == sorted;
    } else {
      InsertStable(u, sorted[1..], p);
      var ins := Insert(u, sorted);
      assert ins == [sorted[0]] + Insert(u, sorted[1..]);
      assert ins[1..] == Insert(u, sorted[1..]);
    }
  }

  /** The sort orders by points, highest first. */
  lemma {:induction false} SortDescending(users: seq<User>)
    ensures Descending(SortByPoints(users))
    ensures |SortByPoints(users)| == |users|
  {
    if users != [] {
      SortDescending(users[1..]);
      InsertKeepsOrder(users[0], SortByPoints(users[1..]));
    }
  }

  /** The sort rearranges the users and loses or adds none. */
  lemma {:induction false} SortPermutes(users: seq<User>)
    ensures multiset(SortByPoints(users)) == multiset(users)
  {
    if users != [] {
      SortPermutes(users[1..]);
      InsertPermutes(users[0], SortByPoints(users[1..]));
      assert users == [users[0]] + users[1..];
    }
  }

  /** The sort is stable: the users with any given points keep their
      server order. */
  lemma {:induction false} SortStable(users: seq<User>, p: int)
    ensures WithPoints(SortByPoints(users), p) == WithPoints(users, p)
  {
    if users != [] {
      SortStable(users[1..], p);
      InsertStable(users[0], SortByPoints(users[1..]), p);
    }
  }

  /** `sortedUsers.map((user, index) => ({rank: index + 1, username, score}))`. */
  function Rank(sorted: seq<User>): (entries: seq<Entry>)
    ensures |entries| == |sorted|
    ensures forall i :: 0 <= i < |entries| ==>
      entries[i] == Entry(i + 1, sorted[i].address, sorted[i].points)
  {
    seq(|sorted|, i requires 0 <= i < |sorted| => Entry(i + 1, sorted[i].address, sorted[i].points))
  }

  /** The (username, score) pairs of the rows, in row order. */
  function Rows(entries: seq<Entry>): (users: seq<User>)
    ensures |users| == |entries|
    ensures forall i :: 0 <= i < |users| ==> users[i] == User(entries[i].username, entries[i].score)
  {
    seq(|entries|, i requires 0 <= i < |entries| => User(entries[i].username, entries[i].score))
  }

  /** The leaderboard built from a user list: one row per user, ranks 1..n
      in order, scores not increasing, the same (address, points) pairs as
      the input, and users of equal points in server order. */
  function BuildLeaderboard(accounts: seq<Account>): (entries: seq<Entry>)
    ensures |entries| == |accounts|
    ensures forall i :: 0 <= i < |entries| ==> entries[i].rank == i + 1
    ensures forall i, j :: 0 <= i < j < |entries| ==> entries[i].score >= entries[j].score
    ensures multiset(Rows(entries)) == multiset(Project(accounts))
    ensures forall p :: WithPoints(Rows(entries), p) == WithPoints(Project(accounts), p)
  {
    var users := Project(accounts);
    var sorted := SortByPoints(users);
    SortDescending(users);
    SortPermutes(users);
    forall p
      ensures WithPoints(sorted, p) == WithPoints(users, p)
    {
      SortStable(users, p);
    }
    var entries := Rank(sorted);
    assert Rows(entries) == sorted;
    entries
  }

  /** The `setLeaderboard` step: a usable answer (`success && data`; an
      empty list counts) replaces the rows, anything else keeps them. */
  function NextLeaderboard(previous: seq<Entry>, reply: UsersReply): (next: seq<Entry>)
    ensures !(reply.UsersAnswered? && reply.success && reply.data.Some?) ==> next == previous
    ensures reply.UsersAnswered? && reply.success && reply.data.Some? ==>
      var users := Project(reply.data.value);
      && |next| == |reply.data.value|
      && (forall i :: 0 <= i < |next| ==> next[i].rank == i + 1)
      && (forall i, j :: 0 <= i < j < |next| ==> next[i].score >= next[j].score)
      && multiset(Rows(next)) == multiset(users)
      && (forall p :: WithPoints(Rows(next), p) == WithPoints(users, p))
  {
    if reply.UsersAnswered? && reply.success && reply.data.Some? then BuildLeaderboard(reply.data.value)
    else previous
  }
}
