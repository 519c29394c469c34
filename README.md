# Masterblog API post store, in Dafny

This project models the in-memory post store of the Masterblog backend
(`backend/backend_app.py`). The store is a process-wide list of posts, each a
record `{id, title, content}`. Four operations work on it:

- **lookup by id.** A linear scan returns the first post whose id matches, or nothing.
- **validation of a creation request.** The body must have a `title` key and a
  `content` key. No other key is looked at.
- **creation.** On a valid body, the new post gets id = largest existing id + 1,
  or 1 when the list is empty. It is appended at the end, and the reply is 201.
  On an invalid body, the reply is 400 and the list is left alone.
- **deletion.** The post is looked up by id and then removed from the list. The
  removal takes out the first element equal to the found post. The reply is 200,
  or 404 when no post has that id.

Everything is in `backend_app.dfy`, in module `BackendApp`:

- **Pure functions** say what each operation does to the list:
  - `FirstWithId`, `NextId` and `RemoveFirst` cover the individual steps.
  - `AddPostOutcome` and `DeletePostOutcome` give the list after a request,
    together with the reply.
- **Class `PostStore`** holds the list as a field:
  - `FindPostById` is the scanning loop.
  - `AddPost` and `DeletePost` change the field in place. Each one is proved
    equal to its pure function and to keep the invariant `Valid()` (ids are unique).
- **Lemmas** relate the pieces:
  - deleting the first post with an id drops exactly that position;
  - uniqueness of ids survives any sequence of creations and deletions;
  - an id can be handed out again after the newest post is deleted.

The new id is `max + 1` over the posts that are present, so deleting the
newest post lets its id be issued again (`DeletedNewestIdIsReissued`). The 400
error text asks for 'title' and 'author', but validation checks 'title' and
'content'. The model checks what the code checks and keeps the text as
written (`InvalidPostDataMessage`).

## Model

| member | source | states |
|---|---|---|
| `BackendApp.InitialPosts` | backend/backend_app.py:7-10 | The store starts with two posts, the first with id 1 and the second with id 2, so their ids are unique and positive. |
| `BackendApp.PostStore.constructor` | backend/backend_app.py:7-10 | A new store holds exactly the two initial posts and satisfies the unique-id invariant. |
| `BackendApp.ValidatePostData` | backend/backend_app.py:24-27 | A body is valid if and only if both "title" and "content" are among its keys. |
| `BackendApp.ValidationIgnoresOtherKeys` | backend/backend_app.py:24-27 | Adding, changing or removing any key other than "title" and "content" never changes the verdict (in particular "author" is not required). |
| `BackendApp.FirstWithId` | backend/backend_app.py:13-21 | Gives nothing exactly when no post has the id; otherwise it gives a position holding that id with no earlier post having it, i.e. the first match. |
| `BackendApp.PostStore.FindPostById` | backend/backend_app.py:13-21 | The loop answers None exactly when no post has the id; otherwise it answers a post of the list with that id, namely the one at the first matching position. |
| `BackendApp.MaxId` | backend/backend_app.py:54 | For a non-empty list, the result is at least every id and is the id of some post. |
| `BackendApp.NextId` | backend/backend_app.py:54 | The new id is strictly greater than every existing id. It is 1 for an empty list, and otherwise one more than some existing id. |
| `BackendApp.RemoveFirst` | backend/backend_app.py:81 | Removing a present element shortens the list by exactly one. |
| `BackendApp.RemoveFirstAt` | backend/backend_app.py:74-81 | If position i holds an element that occurs nowhere before it, removal of that element drops exactly position i and keeps all other posts in order. |
| `BackendApp.DropKeepsIdsUnique` | backend/backend_app.py:81 | Dropping one position from a list with unique ids leaves the ids unique, and no remaining post carries the dropped post's id. |
| `BackendApp.AddPostOutcome` | backend/backend_app.py:46-67 | The request is rejected exactly when validation fails, and then the list is unchanged and the message is the fixed text. When accepted, the list grows by exactly one post at the end, earlier posts and their order are unchanged, and title and content are copied from the body. The new id exceeds every existing id (1 on an empty list, otherwise max + 1), and unique ids stay unique. |
| `BackendApp.PostStore.AddPost` | backend/backend_app.py:46-67 | The new list and reply equal AddPostOutcome of the old list. The status is 201 for a valid body and 400 otherwise. A failed request leaves the list unchanged, a success appends the reply's post, and the unique-id invariant is kept. |
| `BackendApp.DeletePostOutcome` | backend/backend_app.py:72-84 | Reports not-found exactly when no post has the id, and then the list is unchanged. Otherwise the list shrinks by one, losing exactly the first post with that id while the others keep their order. If ids were unique before, they stay unique and no post with that id remains. |
| `BackendApp.PostStore.DeletePost` | backend/backend_app.py:72-84 | Finding the post and then removing the first element equal to it yields exactly DeletePostOutcome of the old list. The status is 200 if a post had the id and 404 otherwise. Not-found leaves the list unchanged. With unique ids before, the invariant is kept and the id is gone. |
| `BackendApp.Serve` | backend/backend_app.py:46-84 | Serving one creation or deletion request to a list with unique ids leaves the ids unique. |
| `BackendApp.ReplayKeepsIdsUnique` | backend/backend_app.py:46-84 | Starting from unique ids, any sequence of creation and deletion requests ends with unique ids. |
| `BackendApp.DeletedNewestIdIsReissued` | backend/backend_app.py:54-81 | From the initial posts, deleting post 2 and then creating a valid post makes a post with id 2 again: ids are reused, not monotonic. |

## Left out

- The Flask application is not modelled. This covers the app object, CORS, the route decorators, `jsonify`, the 404/405 error handlers and `app.run` (backend/backend_app.py:1-5, 30-37, 87-88). These are framework and HTTP calls; the replies are modelled as datatypes carrying the status code.
- `get_posts` (backend/backend_app.py:40-42) is not modelled: it returns the list unchanged.
- The body of the 404 and 200 replies of deletion is not modelled. Those messages format the integer id into text, and the replies carry the id instead.
- Request bodies that are not JSON objects are not modelled. When `get_json()` yields `None`, or an array or string, the membership test behaves differently or raises. The model takes the body as an already-parsed object `map<string, Json>`.
- JSON numbers are modelled as integers; floating point is not modelled.
- The path converter `<int:id>` accepts only non-negative integers. `DeletePost` accepts any integer, and what it proves holds for every id.
- Concurrent requests are not modelled. The model assumes requests are served one after another. The threaded development server started at backend/backend_app.py:88 can interleave two creations, so that both compute the same id at line 54 before either appends at line 64, and one id is issued twice. `PostStore.AddPost`'s `old(Valid()) ==> Valid()`, `Serve` and `ReplayKeepsIdsUnique` hold only under that assumption.
- RemoveFirst: its own contract states only the length. The position it removes is stated by `RemoveFirstAt`. It requires the element to be present, whereas a Python list removal raises `ValueError` when the element is absent. `delete_post` only removes a post it has just found, so that error path is never reached.
