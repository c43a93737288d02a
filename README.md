# video-fetcher, modelled in Dafny

video-fetcher is a console front-end to the `yt-dlp` downloader. This project
models the three files that do the work:

- `core.py` holds URL validation and platform detection. It also reads a file
  of URLs, skipping comments and blank lines and warning about each rejected
  line, and it wraps one `yt-dlp` call, mapping timeouts and non-zero exits
  to failure.
- `descargar_videos.py` is the general downloader. It builds the option list
  and the platform preset, then runs the first command and the platform's
  fallbacks. Batch mode counts successes, records failures with their 1-based
  positions, and can write the failed URLs to a file.
- `facebook_descargador.py` is the Facebook downloader. It deletes tracking
  parameters and rewrites `fb.watch` short links. It then tries six download
  methods in order; a method that raises does not stop the chain.

The executor is a parameter. An oracle maps the history of commands issued so
far to the outcome of the newest one: success with its standard output, a
timeout, a non-zero exit, or a missing executable. The `Runner` class records
every command it is asked to run. Each operation of the program is a
specification function over the oracle and the history, which returns the
result and the new history. The class methods (`Videos.DescargadorVideos`,
`Facebook.DescargadorFacebook`) follow the code's loops and branches and are
proved equal to those functions. What the program promises is proved about
the functions as lemmas.

Prompts, the existence of files and the oracle's answers are passed in as
arguments. Everything printed is left out.

Modules: `Tipos` (Option, Result); `Texto` (the ASCII behaviour of
`strip`, `lower`, `startswith`, `in`, `split` on one character, and iteration
over the lines of a file); `Proceso` (commands, outcomes, the runner); `Core`;
`Cadena` (the run-until-the-first-success pattern that all of the program's
fallback lists share, proved once); `Videos`; `Facebook`.

## Model

| member | source | states |
|---|---|---|
| Core.ValidarUrl | core.py:93-112 | the empty string is rejected as empty; otherwise the stripped text must start with `http://` or `https://` and have at least 10 characters; each of the three errors occurs exactly under its condition; an accepted URL is the stripped input |
| Core.ValidarUrlIdempotente | core.py:93-112 | validating an accepted URL again returns it unchanged |
| Core.SoloEspaciosSinEsquema | core.py:95-104 | a whitespace-only URL passes the emptiness test, strips to nothing and is rejected for its missing scheme |
| Core.UrlCortaRechazada | core.py:109-110 | `http://a` has the scheme but is rejected as too short |
| Core.Buscar | core.py:291-299 | the search finds no platform exactly when no later table entry has a fragment in the URL; when it finds one, that entry matches and no earlier one does |
| Core.DetectarPlataforma | core.py:282-299 | `generico` exactly when no fragment of any platform occurs in the lower-cased URL; otherwise the first platform in table order with a fragment present |
| Core.DetectarIgnoraMayusculas | core.py:293 | detection gives the same platform for a URL and its lower-case form |
| Core.FacebookGanaSiempre | core.py:282-297 | a Facebook fragment anywhere in the URL decides the platform whatever else the URL contains |
| Core.UrlsValidas | core.py:180-193 | no more URLs than lines, and each URL kept is one that validation returns unchanged |
| Core.ParsearUrls | core.py:195-205 | the reader fails exactly when no line yields a valid URL, and otherwise returns those URLs in order |
| Core.LeerUrlsDeArchivo | core.py:180-205 | the line loop returns what the reading function gives, and warns once for each line rejected by validation |
| Core.UrlsValidasLinea | core.py:182-193 | one line adds its stripped text when it is neither blank, a comment nor rejected, and adds nothing otherwise |
| Core.UrlsValidasConcat | core.py:180-193 | the URLs read from two files joined together are the URLs of the first followed by those of the second |
| Core.UrlsValidasMiembro | core.py:180-193 | a URL is read exactly when some line, once stripped, is that URL and is not a comment and is accepted by validation |
| Core.Avisos | core.py:180-192 | definition: the warnings printed while reading, one per line that is neither blank nor a comment and fails validation, with its 1-based number and error |
| Core.AvisosNumerados | core.py:181-192 | every warning carries the 1-based number of its line, counting blank and comment lines, and the numbers increase |
| Core.AvisosCompletos | core.py:188-192 | every line that is neither blank nor a comment and fails validation gets a warning with its number and the validation error |
| Core.CincoLineas | core.py:180-205 | a file of two skipped lines, a URL, a rejected line and a URL yields the two URLs and one warning, for line 4 |
| Core.AvisosCincoLineas | core.py:188-192 | in that file the only warning is for line 4, with the missing-scheme error |
| Core.LineasDelEjemplo | core.py:182-190 | how each line of the sample file is classified: skipped, kept or rejected |
| Core.EjemploDeArchivo | core.py:171-205 | the sample file with a comment, a blank line, two URLs and one bad line is read as the two URLs plus one warning, for line 4 |
| Core.EjecutarComando | core.py:214-239 | a missing executable propagates; a timeout or a non-zero exit gives failure; output is returned only when it was captured, stderr from a failed captured run |
| Core.EjecutarComandoYtdlp | core.py:214-239 | one command is issued and the outcome is mapped as above |
| Cadena.Interpretar | core.py:214-239 | success alone counts as `True`; through the wrapper only a missing executable raises, through a bare `check=True` run only a non-zero exit is a failure |
| Cadena.Intentar | descargar_videos.py:193-204 | definition: run the commands in order after a history, stopping at the first success (`Ganado`) or the first exception (`Abortado`), or `Agotado` after the last failure; the properties are the lemmas below |
| Cadena.IntentarCaracterizado | descargar_videos.py:193-204 | a fallback list runs a prefix of its commands in order; it stops at the first success or the first exception, or runs them all when every one fails |
| Cadena.IntentarGana | descargar_videos.py:201-204 | the first success after nothing but failures is where the run stops with `True` |
| Cadena.IntentarAborta | facebook_descargador.py:113-115 | the first exception after nothing but failures ends the run |
| Cadena.IntentarAgota | descargar_videos.py:193-215 | when every command fails, each is issued exactly once, in order, and the run gives `False` |
| Cadena.IntentarPrefijo | descargar_videos.py:193-204 | seen from outside, a run issues a non-empty prefix of its list; it wins exactly when the last command issued succeeded, and stops early only on success or an exception |
| Cadena.IntentarAcotado | descargar_videos.py:193-204 | a run issues between one and all of its commands after the old history, starting with the first, and wins exactly when the last succeeded |
| Cadena.IntentarCabeza | descargar_videos.py:129-140 | running a command followed by a list is running the command and, when it fails, the list |
| Videos.OpcionesFijas | descargar_videos.py:50-60 | the base options put the output path for the download directory right after `-o`, and hold no `--cookies` |
| Videos.OpcionesBase | descargar_videos.py:48-66 | as written, a configured cookie path raises `NameError` (the module never imports `os`); without one, the base options come back with no `--cookies` |
| Videos.OpcionesBaseCorregidas | descargar_videos.py:63-64 | with `os` imported, `--cookies <path>` is added exactly when a non-empty cookie path that exists is configured |
| Videos.BloquePlataforma | descargar_videos.py:113-121 | a preset is added for Facebook, Instagram, TikTok and YouTube, and none for Twitter or any other site |
| Videos.OpcionesFacebook | descargar_videos.py:68-78 | definition: the Facebook preset, with the desktop user agent, the referer, `best`, the chunk size, ten retries and the API version |
| Videos.OpcionesInstagram | descargar_videos.py:80-85 | definition: `best` with the iPhone user agent |
| Videos.OpcionesTiktok | descargar_videos.py:87-92 | definition: `best` with the TikTok API host |
| Videos.OpcionesYoutube | descargar_videos.py:94-99 | definition: the mp4 and m4a format with mp4 merging |
| Videos.ComandosPara | descargar_videos.py:111-140 | a Facebook URL has four possible commands and any other URL two; the first is `yt-dlp`, the base options, the preset and the URL |
| Videos.ComandosDescarga | descargar_videos.py:105-140 | the same, for the platform detected from the URL |
| Videos.DescargaConOpciones | descargar_videos.py:101-161 | definition: `descargar_video` once the base options are known; a rejected URL or an exception while building the options gives `False` and no command, otherwise the command list runs through the wrapper |
| Videos.ResultadoDescarga | descargar_videos.py:101-161 | definition: `descargar_video` as written, with the base options as `obtener_opciones_base` computes them |
| Videos.DescargaValida | descargar_videos.py:103-140 | for a valid URL and usable options the download is the run of that URL's command list through the wrapper |
| Videos.UrlInvalidaSinLlamadas | descargar_videos.py:103-105 | a URL that fails validation gives `False` without issuing any command |
| Videos.CookiesImpidenDescarga | descargar_videos.py:63 | as written, any configured cookie path makes every download return `False` before a command is issued |
| Videos.DescargaEnOrden | descargar_videos.py:101-161 | a download issues a non-empty prefix of its commands in order, and succeeds exactly when the last command issued succeeded |
| Videos.PrimerIntentoBasta | descargar_videos.py:129-133 | when the first command succeeds, the download succeeds after exactly that command |
| Videos.ComandosFacebook | descargar_videos.py:188-199 | the Facebook fallbacks are the formats `best`, `worst` and 720p, each followed by the output path and the URL |
| Videos.CadenaFacebook | descargar_videos.py:129-138 | a Facebook download issues from one to four commands, the first of them being the first command of its list, and succeeds exactly when the last issued succeeded |
| Videos.ComandosOtros | descargar_videos.py:221-226 | for any other platform the one fallback is `yt-dlp --format best -o <path> <url>` |
| Videos.ReintentoUnico | descargar_videos.py:129-140 | any other platform issues one or two commands, the first of them being the first command of its list, and succeeds exactly when the last issued succeeded |
| Videos.PrimerComandoEmitido | descargar_videos.py:111-129 | with no cookie path configured, the first command issued is the base options, the preset and the validated URL |
| Videos.CookiesEnPrimerComando | descargar_videos.py:111-123 | a `--cookies <path>` in the base options survives into the first command |
| Videos.CorreccionEmiteCookies | descargar_videos.py:63-64 | with the corrected options, an existing cookie file reaches the first command as `--cookies <path>` |
| Videos.Resultados | descargar_videos.py:256-265 | one result per URL |
| Videos.Exitosos | descargar_videos.py:251-263 | the success count never exceeds the number of results |
| Videos.ResultadosPaso | descargar_videos.py:256-265 | the download of URL `i` starts from the history left by the downloads before it |
| Videos.ConteoPaso | descargar_videos.py:262-265 | a success adds one to the count; a failure is recorded with its 1-based position and its URL |
| Videos.ResultadosConcat | descargar_videos.py:256-265 | processing is sequential: the downloads of `a + b` are those of `a`, then those of `b` starting from the history `a` left |
| Videos.ConteoCompleto | descargar_videos.py:250-270 | successes plus failures equal the total |
| Videos.Fallidos | descargar_videos.py:252-265 | definition: the failures the batch loop appends, each with its 1-based position and URL |
| Videos.FallidosOrdenados | descargar_videos.py:256-265 | every recorded failure is a 1-based position whose download failed, with its URL, and positions increase |
| Videos.FallidosCompletos | descargar_videos.py:264-265 | every failed download is recorded |
| Videos.EjemploDeLote | descargar_videos.py:256-265 | three URLs with the middle one successful give one success and failures at positions 1 and 3 |
| Videos.CuerpoFallidos | descargar_videos.py:297-298 | definition: one line per failed URL, in order |
| Videos.TextoFallidos | descargar_videos.py:294-298 | definition: the two comment lines, a blank line and the body |
| Videos.CuerpoReleido | descargar_videos.py:297-298 | read back by the URL reader, the body of the failed-URL file yields its URLs |
| Videos.ReleerFallidos | descargar_videos.py:290-298 | the failed-URL file, two comment lines, a blank line and one URL per line, reads back through the URL reader as exactly the failed URLs, in order |
| Videos.UrlsLeidasEscribibles | core.py:180-193 | every URL the reader returns is a single stripped line, so it can be written on a line of its own and read back |
| Videos.FallidosReleidos | descargar_videos.py:256-298 | the failed-URL file written after a batch over URLs read from a file reads back as exactly the failed URLs, in order |
| Videos.DescargadorVideos.constructor | descargar_videos.py:37-42 | a downloader starts with the given directory and no cookie path |
| Videos.DescargadorVideos.ObtenerOpcionesBase | descargar_videos.py:48-66 | returns the options as written, `NameError` included |
| Videos.DescargadorVideos.ConfigurarCookiesFacebook | descargar_videos.py:163-182 | an empty answer leaves the cookie path as it was; otherwise it becomes the validated path, or none when validation fails |
| Videos.DescargadorVideos.IntentarDescargaFacebookAlternativa | descargar_videos.py:184-215 | the three Facebook fallbacks, run in order until the first success |
| Videos.DescargadorVideos.IntentarDescargaGenerica | descargar_videos.py:217-243 | the single simplified retry |
| Videos.DescargadorVideos.DescargarVideo | descargar_videos.py:101-161 | the result and the commands issued are those of the download function, with exceptions caught as `False` |
| Videos.DescargadorVideos.DescargarConOpciones | descargar_videos.py:111-140 | the first command is the base options, the platform's block and the URL; the fallbacks follow it in order, the download succeeds exactly when one of them does, and exactly the commands tried are issued |
| Videos.DescargadorVideos.DescargarSiguiente | descargar_videos.py:256-265 | one pass of the loop: downloading URL `i` after the earlier ones extends the batch results by its own result and history |
| Videos.DescargadorVideos.DescargarLote | descargar_videos.py:256-265 | the loop gives the success count and the failure list of the batch results, after issuing the batch's commands |
| Videos.DescargadorVideos.DescargarMultiples | descargar_videos.py:245-288 | an unreadable URL file gives its error and no report; otherwise the report holds the total, the successes and the failures, and the failed-URL file is written exactly when there were failures and the user confirmed |
| Facebook.LargoClave | facebook_descargador.py:22 | a key match is a non-empty prefix of the text that ends with `=` |
| Facebook.LargoClaveDe | facebook_descargador.py:22 | when no key holds `&` or `=`, a key of the list followed by `=` at the front of the text is matched exactly: the match is that key and its `=` |
| Facebook.LargoClaveNinguna | facebook_descargador.py:22 | no match is found exactly when no key of the list followed by `=` starts the text |
| Facebook.Segmento | facebook_descargador.py:22 | a segment starts with `?` or `&` followed by one of the four keys and `=`; its value, after the key and `=`, holds no `&`, and it ends at the end of the text or just before the next `&` |
| Facebook.QuitarRastreo | facebook_descargador.py:22 | definition: one left-to-right pass of the substitution, deleting each tracking segment where it starts and keeping every other character |
| Facebook.SinRastreoIntacto | facebook_descargador.py:22 | text without tracking segments is left unchanged |
| Facebook.QuitarRastreoLimpia | facebook_descargador.py:22 | one left-to-right pass leaves no tracking segment behind |
| Facebook.QuitarRastreoIdempotente | facebook_descargador.py:22 | cleaning twice is cleaning once |
| Facebook.TextoConservado | facebook_descargador.py:22 | clean text is kept unchanged in front of what follows it |
| Facebook.SegmentoQuitado | facebook_descargador.py:22 | a segment made of `?` or `&`, a key, `=` and a value free of `&` is deleted entirely |
| Facebook.ParametroFinalQuitado | facebook_descargador.py:22 | a trailing `&mibextid=…` (or `app`, `source`, `paipv`) is removed from a clean URL, leaving the URL |
| Facebook.PrefijoConservado | facebook_descargador.py:22 | cleaning never creates a new prefix free of `&` |
| Facebook.LimpiarUrlSinDominio | facebook_descargador.py:19-29 | a URL with no `fb.watch` after cleaning is a fixed point of a second cleaning |
| Facebook.LimpiarUrlCanonica | facebook_descargador.py:19-29 | a watch URL whose identifier holds no `?`, `&` or `fb.watch` is left unchanged by the cleaner |
| Facebook.IdVideo | facebook_descargador.py:26 | the video identifier holds neither `/` nor `?` |
| Facebook.IdVideoUltimoSegmento | facebook_descargador.py:26 | the identifier is the text after the last `/`, cut at the first `?` |
| Facebook.LimpiarUrl | facebook_descargador.py:19-29 | a URL that contains `fb.watch` after cleaning becomes a watch URL whose identifier holds neither `/` nor `?`; any other URL comes out with its tracking segments deleted and none left |
| Facebook.LimpiarUrlUltimoSegmento | facebook_descargador.py:22-27 | a cleaned URL holding `fb.watch` becomes the watch URL for its last `/`-segment cut at the first `?` |
| Facebook.BarraFinalSinId | facebook_descargador.py:25-27 | as written, a short link ending in `/` becomes a watch URL with an empty identifier |
| Facebook.LimpiarUrlCorregida | facebook_descargador.py:25-27 | the corrected cleaner has the same form, and agrees with the one as written on every URL that does not end in `/` after cleaning |
| Facebook.IdCorregidoConBarra | facebook_descargador.py:26 | the corrected identifier is the last segment whether or not a `/` follows it |
| Facebook.BarraFinalConId | facebook_descargador.py:25-27 | with the correction, `https://fb.watch/<id>/` becomes the watch URL for `<id>` |
| Facebook.ComandoBasico | facebook_descargador.py:34-40 | definition: method 1's command, `best` without warnings |
| Facebook.ComandoHeaders | facebook_descargador.py:51-61 | definition: method 2's command, with user agent, referer, the two headers and no certificate check |
| Facebook.ComandoApi | facebook_descargador.py:72-81 | definition: method 3's command, with the API version, the chunk size and fifteen retries |
| Facebook.ComandoFormato | facebook_descargador.py:102-108 | definition: method 4's command for one format, merged as mp4 |
| Facebook.ComandoCookies | facebook_descargador.py:126-132 | definition: method 5's command with `--cookies` |
| Facebook.ComandoDirecto | facebook_descargador.py:143-148 | definition: method 6's command, `--get-url` with `best` |
| Facebook.Metodo4 | facebook_descargador.py:89-117 | definition: the formats in order through `check=True` runs; the first success gives `True`, a failure moves on, anything else raises out of the method |
| Facebook.Simple | facebook_descargador.py:31-87 | a single `check=True` run issues its command once; `True` on success, `False` on a non-zero exit, otherwise an exception |
| Facebook.Metodo5 | facebook_descargador.py:119-138 | without a cookie path that is non-empty and exists, method 5 returns `False` and issues nothing; otherwise it makes its one call with `--cookies` |
| Facebook.Metodo6 | facebook_descargador.py:140-164 | method 6 is `True` exactly when the call succeeds with output that is not blank after stripping, and raises exactly when the call neither succeeds nor exits non-zero |
| Facebook.Metodo4EnOrden | facebook_descargador.py:89-117 | method 4 issues a non-empty prefix of its four formats, and every format before the last issued failed; `True` exactly when the last succeeded, `False` exactly when all four failed |
| Facebook.Metodo4Agotado | facebook_descargador.py:100-117 | when all four formats fail, all four are issued and the method returns `False` |
| Facebook.EjecutarMetodo | facebook_descargador.py:178-185 | definition: each entry of the method table calls its method with the cleaned URL; method 5 also gets the cookie path |
| Facebook.Etapas | facebook_descargador.py:178-185 | definition: the six methods in table order as stages of the chain |
| Facebook.Recorrer | facebook_descargador.py:191-198 | definition: the loop from a stage on, stopping at the first stage that returns `True`, and passing over `False` and exceptions alike |
| Facebook.RecorrerGana | facebook_descargador.py:191-195 | when the chain stops at a method, that method returned `True`, none before it did, and nothing after it ran |
| Facebook.RecorrerAgota | facebook_descargador.py:191-209 | the chain finds no method exactly when none returns `True`; methods that return `False` and methods that raise are passed over alike, and all of them run |
| Facebook.PrimeraGanadora | facebook_descargador.py:166-209 | the chain stops at method `i` exactly when that method returns `True` and none before it did |
| Facebook.CadenaCompleta | facebook_descargador.py:166-209 | the chain returns `True` exactly at the first method that returns `True`, with no later method run; it returns `False` only after every method has run, each returning `False` or raising |
| Facebook.MetodoApuntaUrl | facebook_descargador.py:31-164 | a method only appends to the history, and every command it issues has the URL it was given as its last argument |
| Facebook.HistoriaApuntaUrl | facebook_descargador.py:178-185 | each method in the table is called with the cleaned URL, so every command issued so far ends with it |
| Facebook.RecorrerEsHistoria | facebook_descargador.py:191-209 | wherever the chain stops, the history is that after some number of methods |
| Facebook.RecorridoApuntaUrl | facebook_descargador.py:166-209 | every command the chain issues ends with the cleaned URL |
| Facebook.DescargadorFacebook.constructor | facebook_descargador.py:15-17 | the downloader keeps the given directory |
| Facebook.DescargadorFacebook.EjecutarSimple | facebook_descargador.py:43-46 | one call mapped as `Simple` says |
| Facebook.DescargadorFacebook.Metodo1Basico | facebook_descargador.py:31-46 | the basic command, run once |
| Facebook.DescargadorFacebook.Metodo2ConHeaders | facebook_descargador.py:48-67 | the command with the desktop user agent, referer and Accept headers, run once |
| Facebook.DescargadorFacebook.Metodo3ApiVersion | facebook_descargador.py:69-87 | the command with the API version and retry settings, run once |
| Facebook.DescargadorFacebook.Metodo4FormatoEspecifico | facebook_descargador.py:89-117 | the format loop issues and returns what method 4's function says |
| Facebook.DescargadorFacebook.Metodo5Cookies | facebook_descargador.py:119-138 | the guard and the cookie call, as method 5's function says |
| Facebook.DescargadorFacebook.Metodo6ExtraccionDirecta | facebook_descargador.py:140-164 | the direct-URL call, as method 6's function says |
| Facebook.DescargadorFacebook.Ejecutar | facebook_descargador.py:178-185 | each entry of the method table calls its method |
| Facebook.DescargadorFacebook.RecorrerMetodos | facebook_descargador.py:191-209 | the loop over the table gives the chain's result and history |
| Facebook.DescargadorFacebook.DescargarConTodosLosMetodos | facebook_descargador.py:166-209 | the chain runs on the cleaned URL with the cookie path given only when the lower-cased answer is `s`, and returns the chain's result |
| Texto.StripIdempotente | core.py:101 | stripping twice is stripping once |
| Texto.LowerIdempotente | core.py:293 | lower-casing twice is lower-casing once |
| Texto.StripSinBordes | core.py:101 | the stripped text has no whitespace at either end |
| Texto.ContainsEnPosicion | core.py:296 | the substring test holds exactly when the fragment occurs at some position |
| Texto.DespuesDelUltimo | facebook_descargador.py:26 | the text after the last separator is a suffix without it, preceded by the separator or by nothing |
| Texto.AntesDe | facebook_descargador.py:26 | the text before the first separator is a prefix without it, followed by the separator or by nothing |
| Texto.Lineas | core.py:180 | every line but the last ends with a newline, and no line holds a newline anywhere else |
| Texto.LineasUnidas | core.py:180 | the lines joined back together are the whole text |

## Left out

- Printing, screen clearing, the pauses, the menus (`menu_principal`, `ejecutar`, `menu`) and `mostrar_ayuda` are left out; they only present results.
- `verificar_python_version`, `verificar_ytdlp_instalado`, `instalar_ytdlp`, `verificar_dependencias` and `actualizar_ytdlp` are left out; they check or change the installation, not the downloads.
- `validar_archivo_existe`, `validar_archivo_cookies` and `crear_directorio_seguro` are left out; they inspect the file system. Only two outcomes are parameters: `existentes`, the set of existing files, stands for the `os.path.exists` calls at descargar_videos.py:63 and facebook_descargador.py:121, and the cookie answer of `configurar_cookies_facebook` is passed already validated. The missing-file error that `validar_archivo_existe` raises for the URL file (core.py:174, reported by `descargar_multiples`) is not modelled: the reader always has the file's lines.
- `obtener_info_video` is left out; it only prints video metadata.
- The executor is an oracle over the command history. Real `yt-dlp` runs, files, the network and the clock are not modelled.
- `Facebook.Simple`: `subprocess.run` gets no timeout in the Facebook module, so a timeout cannot happen there. The model treats that outcome as the exception it would be.
- `Core.LeerUrlsDeArchivo`: takes the file already split into lines. The `UnicodeDecodeError` path is left out, because the model has no bytes and no encodings.
- `Texto.Lower`: lower-cases only ASCII letters, and `Strip` strips only ASCII whitespace. Python's Unicode case and space tables are not modelled.
- Universal newlines are not modelled: only `\n` ends a line. A `\r` just before a `\n` or at the end of the text stays part of its line and `strip` removes it, as in Python; a lone `\r` inside the text ends a line in Python but stays inside one in the model.
- `Facebook.LimpiarUrl` is idempotent on URLs with no `fb.watch` after cleaning (`Facebook.LimpiarUrlSinDominio`) and on watch URLs (`Facebook.LimpiarUrlCanonica`), but not in general: `https://x.com/fb.watch` becomes a watch URL for `fb.watch`, which a second pass turns into the watch URL with an empty identifier.
- The output path is the directory joined to the template with `/`; `pathlib` normalisation is not modelled.
- The home-directory paths chosen by the constructors are not modelled; the directory is an argument.
- Exceptions other than the ones the code names, and the Ctrl-C handling of the menus, are not modelled.

## Findings

| source | as written | input that shows it | evidently intended | confidence | as-written member | corrected member |
|---|---|---|---|---|---|---|
| descargar_videos.py:63 | `os.path.exists` is called, but the module never imports `os`, so with a cookie path configured `obtener_opciones_base` raises `NameError`; `descargar_video` catches it and returns `False` for every URL | a cookie path such as `cookies.txt` set by option 3, then any valid URL | pass `--cookies <path>` when the file exists, and download normally | high, not executed | Videos.CookiesImpidenDescarga | Videos.CorreccionEmiteCookies |
| facebook_descargador.py:26 | the identifier is `url.split('/')[-1]`, which is empty for a short link ending in `/`, giving `https://www.facebook.com/watch/?v=` | `https://fb.watch/abc123/` | the identifier of the last non-empty path segment, `abc123` | medium, not executed | Facebook.BarraFinalSinId | Facebook.BarraFinalConId |
