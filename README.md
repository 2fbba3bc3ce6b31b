# Knowledge assistant: chunk store and answer-stream reader

This project models in Dafny the two pieces of logic of a small
retrieval-augmented question-answering service that are its own, rather
than calls into FAISS, OpenAI, pypdf, FastAPI or Streamlit.

- **The chunk store of `db.py`** (module `VectorDb`, class `Store`). The
  module-level globals `faiss_index` and `stored_chunks` become the fields
  `indexExists` (the index is not `None`), `count` (the index's `ntotal`),
  `chunks` and `disk` (what `save_db` last wrote). Position *i* of the index
  names `chunks[i]`. `add_to_db` adds a batch of vectors and extends the
  list. `search_db` filters the raw `(idx, dist)` hits of the
  nearest-neighbour search into chunk texts. That loop is a `for` loop in
  `Store.Search`, proved equal to the fold `Select`. `Select` is in turn
  characterised by the lemmas: which hits are kept, in which order, and when
  the loop raises. The store checks `idx == -1` but no other negative
  position. The model therefore also follows Python's negative list
  subscript, which counts from the end. A hit below `-len(stored_chunks)`
  that passes both guards raises `IndexError`. The nearest-neighbour index
  itself never returns a position below -1 (`FromIndex`). On such hits the
  search never raises, and every result is an in-range chunk.
- **The chat client of `ui.py`** (module `ChatUi`). `HistoryPayload` is the
  history sent with a question: every message but the prompt just
  appended. The response lines are already classified as `Meta`, `Token`,
  `Other`, `Blank` or `Malformed` (a line `json.loads` rejects).
  `ReadStream` is the `for line in response.iter_lines()` loop, proved equal
  to the left fold `Decode`. The lemmas relate `Decode` to independent
  descriptions. The answer is the concatenation of the token contents in
  arrival order. The sources are those of the last `meta` line. Blank and
  other lines change nothing. A malformed line anywhere makes reading fail.
  `Session.Ask` does nothing for an empty prompt. Otherwise it appends the
  user's message, builds the payload and reads the answer. It appends exactly one assistant message when the status is
  200 and the stream decodes, and none otherwise.

The nearest-neighbour search and the HTTP request are parameters. `Search`
takes the hits that `faiss_index.search(query, k)` returned, at most `k` of
them. `Ask` takes the status code and the stream's lines that the backend
returned.

## Model

| member | source | states |
|---|---|---|
| `VectorDb.Store.constructor` | db.py:9-11 | at import there is no index, the chunk list is empty and the count is 0 |
| `VectorDb.Store.InitFresh` | db.py:24-26 | `init_db` with nothing on disk creates an empty index and an empty list, so the store is aligned |
| `VectorDb.Store.Save` | db.py:29-34 | called with an existing index (its only call follows a successful add), it writes the index count and the chunk list together as one snapshot |
| `VectorDb.Store.Add` | db.py:36-46 | on success the count grows by exactly the number of vectors, the list becomes the old list followed by the new chunks (old positions unchanged) and the new state is saved; a ragged batch, a missing index, an empty batch or a width other than 1536 raises and changes nothing; from an aligned state the result is aligned iff as many chunks as vectors were added |
| `VectorDb.Store.Search` | db.py:48-69 | with no index it raises; otherwise the result is the outcome of the filter loop over the hits; the method changes nothing |
| `VectorDb.Store.Stats` | db.py:71-74 | reports the index's vector count, 0 with no index, which on an aligned store is the number of chunks |
| `VectorDb.SelectMatchesKept` | db.py:50-69 | on hits the index can return the search never raises, yields at most one result per hit, and its j-th result is `chunks[idx]` of the j-th accepted hit (`0 <= idx < len`, `dist < threshold`) |
| `VectorDb.KeptEnumerates` | db.py:55-65 | the accepted hit positions are listed strictly increasing (hit order) and a position is listed iff its hit is in range and below the threshold |
| `VectorDb.IgnoredHitContributesNothing` | db.py:61-67 | a `-1` sentinel, a position at or past the end, or a distance at or above the threshold changes nothing wherever it occurs among the hits |
| `VectorDb.SelectRaisesIff` | db.py:61-65 | the loop raises iff some hit other than -1, below `-len`, passes the threshold |
| `VectorDb.SelectErrorPersists` | db.py:55-65 | once the subscript has raised, the whole search raises |
| `VectorDb.SelectOnlyRaisesListIndexError` | db.py:65 | the only exception the loop raises is the list subscript's |
| `ChatUi.HistoryPayload` | ui.py:50-53 | the history sent is the message list without its last entry, in the same order, each entry copied as its role and content |
| `ChatUi.ReadStream` | ui.py:71-104 | the reading loop's outcome is the fold `Decode` over the lines |
| `ChatUi.DecodeFailsIff` | ui.py:74-76 | reading fails iff some line is malformed |
| `ChatUi.DecodeFailurePersists` | ui.py:71-104 | once a line fails to decode, reading the whole stream fails |
| `ChatUi.DecodedAnswer` | ui.py:81-87 | the answer is the concatenation, in arrival order, of every token's content (`""` when missing); the first-token flag is set iff some token arrived |
| `ChatUi.TranscriptAppend` | ui.py:86-87 | one more line adds its own text at the end of the concatenation |
| `ChatUi.DecodedSourcesOfLastMeta` | ui.py:78-79 | the sources are those of the last `meta` line, `[]` if it has none |
| `ChatUi.DecodedSourcesWithoutMeta` | ui.py:65-79 | with no `meta` line the sources stay `[]` |
| `ChatUi.InertLineIgnored` | ui.py:74-88 | a blank line or a line of another type changes nothing wherever it occurs |
| `ChatUi.Session.constructor` | ui.py:33-34 | a new session starts with no messages |
| `ChatUi.Session.Ask` | ui.py:42-106 | an empty prompt changes nothing and sends nothing; otherwise the user's message is appended; the payload carries the question and the messages as they were before it; exactly one assistant message holding the decoded answer is appended on a 200 status with a fully decoded stream, and none on a decode error or another status |

## Left out

- The loading branch of `init_db` (`faiss.read_index`, `json.load`, `os.path.exists`): file I/O. Only the fresh, empty branch is modelled. `save_db` is modelled as a snapshot of the count and the list, without the file formats or write failures.
- The index's vectors and distance computation: the index is seen only through its count, and the hits of a search are an input.
- numpy's float32 conversion and rounding: distances are `real`, and only their `<` against the threshold matters. The threshold is a parameter; 1.3 is only its default.
- The shape checks of `add_to_db` come from numpy and the FAISS Python binding, which are not part of this model. They are modelled as `Ragged` and `IsBatch`.
- The debug `print` calls of db.py: logging only.
- ai.py (OpenAI embedding and chat calls), utils.py (PDF text extraction) and main.py (a static health endpoint): foreign calls or trivial.
- In ui.py: the Streamlit rendering (chat messages, spinner, placeholder, sources expander), the upload sidebar (ui.py:14-28), the `requests` transport and `json.loads` itself. Lines come already classified.
- Stream lines that decode to something other than a JSON object (where `.get` raises), token contents that are not strings, `meta` sources that are not iterable (a truthy value such as `5` makes the `for s in sources` loop raise TypeError), and bytes that are not UTF-8: each raises an exception ui.py does not catch, and they are not modelled.
- ChatUi.Session.Ask: a `Meta` record carries a list of strings, so a 200 stream whose every line decoded but whose sources are not iterable cannot be expressed; ui.py then raises before appending the assistant message, which the contract's "exactly one assistant message" does not cover.
- VectorDb.Store.Save: requires an existing index, which its only caller guarantees; what the library's `write_index` does with a missing index is not modelled.
- Connection errors of `requests.post`, which ui.py does not catch.
